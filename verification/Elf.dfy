/** The ELF-64 headers the program loader reads. */
module Elf {
  import opened Results
  import opened Bytes

  const PT_LOAD: nat := 1
  const ELF_MAGIC: seq<Byte> := [0x7f, 0x45, 0x4c, 0x46]
  const ELFCLASS64: Byte := 2
  const ELFDATA2LSB: Byte := 1
  const EV_CURRENT: Byte := 1
  const ET_EXEC: nat := 2
  const EM_X86_64: nat := 0x3e
  const ELF_HEADER_SIZE: nat := 64
  const PROGRAM_HEADER_SIZE: nat := 56

  datatype ElfError =
    | TooSmall | BadMagic | UnsupportedClass | UnsupportedEndian | UnsupportedVersion | UnsupportedType
    | UnsupportedMachine | BadProgramHeaders

  datatype Elf = Elf(bytes: seq<Byte>, entry: nat, phoff: nat, phentsize: nat, phnum: nat)

  datatype ProgramHeader = ProgramHeader(typ: nat, flags: nat, offset: nat, vaddr: nat, filesz: nat, memsz: nat)

  function Parse(bytes: seq<Byte>): Result<Elf, ElfError> {
    if |bytes| < ELF_HEADER_SIZE then Err(TooSmall)
    else if bytes[0..4] != ELF_MAGIC then Err(BadMagic)
    else if bytes[4] != ELFCLASS64 then Err(UnsupportedClass)
    else if bytes[5] != ELFDATA2LSB then Err(UnsupportedEndian)
    else if bytes[6] != EV_CURRENT then Err(UnsupportedVersion)
    else if Read(bytes, 16, 2) != Some(ET_EXEC) then Err(UnsupportedType)
    else if Read(bytes, 18, 2) != Some(EM_X86_64) then Err(UnsupportedMachine)
    else
      var entry, phoff := Read(bytes, 24, 8).value, Read(bytes, 32, 8).value;
      var phentsize, phnum := Read(bytes, 54, 2).value, Read(bytes, 56, 2).value;
      if phentsize < PROGRAM_HEADER_SIZE then Err(BadProgramHeaders)
      else if phoff + phentsize * phnum >= U64_LIMIT then Err(BadProgramHeaders)
      else if phoff + phentsize * phnum > |bytes| then Err(BadProgramHeaders)
      else Ok(Elf(bytes, entry, phoff, phentsize, phnum))
  }

  function ProgramHeaderAt(elf: Elf, index: nat): Option<ProgramHeader> {
    if index >= elf.phnum then None
    else
      var offset := elf.phoff + index * elf.phentsize;
      var typ, flags := Read(elf.bytes, offset, 4), Read(elf.bytes, offset + 4, 4);
      var fileOffset, vaddr := Read(elf.bytes, offset + 8, 8), Read(elf.bytes, offset + 16, 8);
      var filesz, memsz := Read(elf.bytes, offset + 32, 8), Read(elf.bytes, offset + 40, 8);
      if typ.None? || flags.None? || fileOffset.None? || vaddr.None? || filesz.None? || memsz.None? then None
      else Some(ProgramHeader(typ.value, flags.value, fileOffset.value, vaddr.value, filesz.value, memsz.value))
  }

  /** A 64-bit little-endian x86-64 executable whose program-header table lies in the file. */
  ghost predicate WellFormed(bytes: seq<Byte>) {
    && |bytes| >= ELF_HEADER_SIZE
    && bytes[0..4] == ELF_MAGIC
    && bytes[4..7] == [ELFCLASS64, ELFDATA2LSB, EV_CURRENT]
    && bytes[16..20] == [2, 0, 0x3e, 0]
    && LeValue(bytes[54..56]) >= PROGRAM_HEADER_SIZE
    && LeValue(bytes[32..40]) + LeValue(bytes[54..56]) * LeValue(bytes[56..58]) <= |bytes|
  }

  /** Parsing accepts exactly the well-formed executables. */
  lemma ParseExact(bytes: seq<Byte>)
    requires |bytes| < U64_LIMIT
    ensures Parse(bytes).Ok? <==> WellFormed(bytes)
  {
    if |bytes| >= ELF_HEADER_SIZE {
      TwoBytes(bytes, 16);
      TwoBytes(bytes, 18);
      hide LeValue;
      assert bytes[4..7] == [bytes[4], bytes[5], bytes[6]];
      assert bytes[16..20] == [bytes[16], bytes[17], bytes[18], bytes[19]];
    }
  }

  /** Every program header of a parsed file can be read, so the loader skips none of them. */
  lemma HeadersPresent(bytes: seq<Byte>, index: nat)
    requires Parse(bytes).Ok? && index < Parse(bytes).value.phnum
    ensures ProgramHeaderAt(Parse(bytes).value, index).Some?
  {
    var elf := Parse(bytes).value;
    hide LeValue, Parse;
    TableRow(index, elf.phentsize, elf.phnum);
  }

  lemma TableRow(index: nat, size: nat, count: nat)
    requires index < count
    ensures index * size + size <= size * count
  {
    assert (index + 1) * size <= count * size;
  }

}
