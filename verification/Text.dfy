/** Text in fixed-size, NUL-padded fields. */
module Text {
  import opened Bytes
  import opened Results

  predicate Continues(s: seq<Byte>, i: nat, lo: nat, hi: nat) {
    i < |s| && lo <= s[i] <= hi
  }

  /** The length of the UTF-8 sequence `s` starts with, or 0. */
  function Utf8Length(s: seq<Byte>): nat
    requires s != []
  {
    var b := s[0];
    if b < 0x80 then 1
    else if 0xc2 <= b <= 0xdf then (if Continues(s, 1, 0x80, 0xbf) then 2 else 0)
    else if 0xe0 <= b <= 0xef then
      (if Continues(s, 1, if b == 0xe0 then 0xa0 else 0x80, if b == 0xed then 0x9f else 0xbf)
          && Continues(s, 2, 0x80, 0xbf)
       then 3 else 0)
    else if 0xf0 <= b <= 0xf4 then
      (if Continues(s, 1, if b == 0xf0 then 0x90 else 0x80, if b == 0xf4 then 0x8f else 0xbf)
          && Continues(s, 2, 0x80, 0xbf) && Continues(s, 3, 0x80, 0xbf)
       then 4 else 0)
    else 0
  }

  predicate ValidUtf8(s: seq<Byte>) {
    s != [] ==> 0 < Utf8Length(s) <= |s| && ValidUtf8(s[Utf8Length(s)..])
  }

  /** How many bytes come before the first NUL. */
  function NulPrefix(s: seq<Byte>): (n: nat)
    ensures n <= |s|
  {
    if s == [] || s[0] == 0 then 0 else 1 + NulPrefix(s[1..])
  }

  /** A NUL-padded field read up to its first NUL: UTF-8. */
  function TextOrEmpty(field: seq<Byte>): Option<seq<Byte>> {
    var name := field[..NulPrefix(field)];
    if ValidUtf8(name) then Some(name) else None
  }

  /** A NUL-padded string field: not empty, and UTF-8. */
  function FixedString(field: seq<Byte>): Option<seq<Byte>> {
    var name := field[..NulPrefix(field)];
    if name != [] && ValidUtf8(name) then Some(name) else None
  }

  /** What the writers accept. */
  predicate Ascii(s: seq<Byte>) {
    forall i :: 0 <= i < |s| ==> s[i] < 0x80
  }

  /** ASCII without NUL: what the readers give back. */
  predicate Plain(s: seq<Byte>) {
    forall i :: 0 <= i < |s| ==> 0 < s[i] < 0x80
  }

  /** Text up to its first NUL. */
  function Cut(s: seq<Byte>): (r: seq<Byte>)
    ensures |r| <= |s|
  {
    s[..NulPrefix(s)]
  }

  /** Cutting loses nothing exactly when there is no NUL. */
  lemma {:induction false} CutWhole(s: seq<Byte>)
    ensures 0 !in Cut(s) && (Cut(s) == s <==> 0 !in s)
  {
    if s != [] && s[0] != 0 {
      CutWhole(s[1..]);
      assert Cut(s) == [s[0]] + Cut(s[1..]);
      assert s == [s[0]] + s[1..];
    }
  }

  /** A padded field is read up to the first NUL of what was written. */
  lemma {:induction false} PaddedCut(s: seq<Byte>, padding: seq<Byte>)
    requires padding == [] || padding[0] == 0
    ensures NulPrefix(s + padding) == NulPrefix(s) && Cut(s + padding) == Cut(s)
  {
    if s == [] {
      assert s + padding == padding;
    } else {
      PaddedCut(s[1..], padding);
      assert (s + padding)[1..] == s[1..] + padding;
    }
  }

  lemma {:induction false} PlainIsUtf8(s: seq<Byte>)
    requires Plain(s)
    ensures ValidUtf8(s)
  {
    if s != [] { PlainIsUtf8(s[1..]); }
  }

  /** A padded string is read up to its first NUL. */
  lemma PaddedReads(s: seq<Byte>, padding: seq<Byte>)
    requires Ascii(s) && (padding == [] || padding[0] == 0)
    ensures TextOrEmpty(s + padding) == Some(Cut(s))
    ensures FixedString(s + padding) == if Cut(s) == [] then None else Some(Cut(s))
  {
    PaddedCut(s, padding);
    CutWhole(s);
    PlainIsUtf8(Cut(s));
  }
}
