/** Names and rights the boot compiler and the kernel share when they speak of policy. */
module PolicyTerms {
  import opened Bits
  import opened Bytes
  import opened Results
  import opened Wire
  import opened BootRecords

  const OBJECT_ENDPOINT: nat := 1
  const OBJECT_STORE: nat := 2
  const OBJECT_TIMER: nat := 4
  const OBJECT_NETWORK_PORT: nat := 5
  const OBJECT_IO_PORT_RANGE: nat := 6
  const OBJECT_MMIO_REGION: nat := 7
  const OBJECT_INTERRUPT_LINE: nat := 8
  const OBJECT_DMA_REGION: nat := 9
  const OBJECT_PCI_DEVICE: nat := 10
  const OBJECT_VIRTIO_DEVICE: nat := 11
  const OBJECT_NAMESPACE: nat := 12
  const OBJECT_VFS_ROOT: nat := 13
  const OBJECT_FRAMEBUFFER: nat := 14
  const OBJECT_SECRET: nat := 15

  const RIGHT_SEND: nat := 1
  const RIGHT_RECEIVE: nat := 2
  const RIGHT_READ: nat := 4
  const RIGHT_WRITE: nat := 8
  const RIGHT_SNAPSHOT: nat := 0x10
  const RIGHT_RESTORE: nat := 0x20
  const RIGHT_CONTROL: nat := 0x40
  const RIGHT_BIND: nat := 0x80
  const RIGHT_LISTEN: nat := 0x100
  const RIGHT_MAP: nat := 0x200
  const RIGHT_RESOLVE: nat := 0x400
  const RIGHT_CREATE: nat := 0x800
  const RIGHT_UNLINK: nat := 0x1000
  const RIGHT_RENAME: nat := 0x2000
  const RIGHT_MOUNT: nat := 0x4000
  /** Every right there is. */
  const KNOWN_RIGHTS: nat := 0x7fff

  const BOOTSTRAP_READ: nat := 1
  const BOOTSTRAP_SEND: nat := 0x10
  const BOOTSTRAP_RECEIVE: nat := 0x20
  const BOOTSTRAP_CONTROL: nat := 0x40
  const BOOTSTRAP_INSPECT_METADATA: nat := 0x40_0000
  /** Control, allocate, delegate, revoke, inspect, create, start, kill and wait. */
  const BOOTSTRAP_PROCESS_CONTROL: nat := 0x7_f0c0
  /** Bits 0-2, 4-18 and 22-26. */
  const KNOWN_BOOTSTRAP: nat := 0x7c7_fff7

  /** `a & !b == 0` for 16-bit rights. */
  predicate Allowed(a: nat, b: nat) { Within(a, b, 16) }

  function Both(a: nat, b: nat): nat { Or(a, b, 16) }

  predicate HasRight(rights: nat, right: nat)
    requires right > 0
  {
    rights / right % 2 == 1
  }

  function Bit(r: nat, i: nat): nat { r / Pow2(i) % 2 }

  /** The bootstrap rights of 16-bit rights. */
  function FromCompact(r: nat): nat {
    Bit(r, 0) * 0x10 + Bit(r, 1) * 0x20 + Bit(r, 2) + Bit(r, 3) * 2 + Bit(r, 4) * 0x100 + Bit(r, 5) * 0x200
    + Bit(r, 6) * 0x40
    + Bit(r, 7) * 0x400 + Bit(r, 8) * 0x800 + Bit(r, 9) * 4 + Bit(r, 10) * 0x80_0000 + Bit(r, 11) * 0x8000
    + Bit(r, 12) * 0x100_0000
    + Bit(r, 13) * 0x200_0000 + Bit(r, 14) * 0x400_0000
  }

  // ----- Text -----

  /** The bytes of ASCII text. */
  function B(s: string): (r: Str)
    requires forall i :: 0 <= i < |s| ==> s[i] < '\U{0080}'
    ensures |r| == |s|
  {
    seq<Byte>(|s|, i requires 0 <= i < |s| => s[i] as int)
  }

  const ROOT_PATH: Str := B("/")
  const STATE_PATH: Str := B("/state")
  const STATE_DIR: Str := B("/state/")
  const BLOCK_DRIVER: Str := B("block-driver")
  const BOOT_MODULE_KRUSTBOOT_MANIFEST: Str := B("boot-module:krustboot-manifest")
  const ENDPOINT_PREFIX: Str := B("endpoint:")
  const GEN_MANAGER: Str := B("gen-manager")
  const GENERATION_METADATA_BLOCK_REPLY: Str := B("generation-metadata-block-reply")
  const GENERATION_METADATA_BLOCK_REQUEST: Str := B("generation-metadata-block-request")
  const INIT_ENDPOINT_DELEGATION: Str := B("init-endpoint-delegation")
  const INITIAL_MANIFEST: Str := B("initial-manifest")
  const INITIAL_PROCESS_CONTROL: Str := B("initial-process-control")
  const INITIAL_RESTART_TIMER: Str := B("initial-restart-timer")
  const LOGD: Str := B("logd")
  const NATIVE_SECRET: Str := B("native-secret")
  const OWNER_ONLY: Str := B("owner-only")
  const PROCESS_CONTROL: Str := B("process-control")
  const READINESS: Str := B("readiness")
  const READINESS_RECEIVE: Str := B("readiness-receive")
  const READINESS_SEND: Str := B("readiness-send")
  const SECRET_LOGD_TOKEN: Str := B("secret:logd-token")
  const SERIAL_LOG: Str := B("serial-log")
  const STATE_VFS_REPLY: Str := B("state-vfs-reply")
  const STATE_VFS_REQUEST: Str := B("state-vfs-request")
  const STATE_PREFIX: Str := B("state:")
  const PROC_PREFIX: Str := B("proc:")
  const TIMER_MONOTONIC_TIMER: Str := B("timer:monotonic-timer")
  const VERTEX_STATE: Str := B("vertex-state")
  const VERTEXFS_DEVICE_REPLY: Str := B("vertexfs-device-reply")
  const VERTEXFS_DEVICE_REQUEST: Str := B("vertexfs-device-request")
  const KIND_IPC_ENDPOINT: Str := B("ipc-endpoint")
  const KIND_STORE_OBJECT: Str := B("store-object")
  const KIND_TIMER: Str := B("timer")
  const KIND_NETWORK_PORT: Str := B("network-port")
  const KIND_IO_PORT: Str := B("io-port")
  const KIND_MMIO_REGION: Str := B("mmio-region")
  const KIND_FRAMEBUFFER: Str := B("framebuffer")
  const KIND_INTERRUPT_LINE: Str := B("interrupt-line")
  const KIND_DMA_REGION: Str := B("dma-region")
  const KIND_PCI_DEVICE: Str := B("pci-device")
  const KIND_VIRTIO_DEVICE: Str := B("virtio-device")
  const KIND_NAMESPACE: Str := B("namespace")
  const KIND_VFS_ROOT: Str := B("vfs-root")
  const KIND_CLOCK: Str := B("clock")
  const MONOTONIC_TIMER: Str := B("monotonic-timer")
  const CAP_PREFIX: Str := B("cap:")
  const EXPLICIT: Str := B("explicit")
  const CONTROL_SUFFIX: Str := B("/control")
  const CONFIG: Str := B("config")
  const NAME_SEND: Str := B("send")
  const NAME_RECEIVE: Str := B("receive")
  const NAME_READ: Str := B("read")
  const NAME_WRITE: Str := B("write")
  const NAME_READWRITE: Str := B("readwrite")
  const NAME_READ_WRITE: Str := B("read-write")
  const NAME_SNAPSHOT: Str := B("snapshot")
  const NAME_RESTORE: Str := B("restore")
  const NAME_CONTROL: Str := B("control")
  const NAME_BIND: Str := B("bind")
  const NAME_LISTEN: Str := B("listen")
  const NAME_MAP: Str := B("map")
  const NAME_RESOLVE: Str := B("resolve")
  const NAME_CREATE: Str := B("create")
  const NAME_UNLINK: Str := B("unlink")
  const NAME_RENAME: Str := B("rename")
  const NAME_MOUNT: Str := B("mount")

  const VERTEX_STORE: Str := B("svc:vertex-store")
  const STORE_LOGD: Str := B("store:logd-demo")
  const STORE_ECHO_SERVER: Str := B("store:echo-server-demo")
  const STORE_ECHO: Str := B("store:echo-demo")
  const PCI: Str := B("pci")
  const VIRTIO: Str := B("virtio")
  const PCI_SUFFIX: Str := B("#pci")
  const VIRTIO_SUFFIX: Str := B("#virtio")

  const SLASH: Byte := 47

  function StripPrefix(s: Str, prefix: Str): Option<Str> {
    if prefix <= s then Some(s[|prefix|..]) else None
  }

  /** Everything before the first slash. */
  function FirstComponent(s: Str): Str {
    if s == [] || s[0] == SLASH then [] else [s[0]] + FirstComponent(s[1..])
  }

  /** An absolute path without empty components, NULs or a trailing slash. */
  predicate PathOk(path: Str) {
    && path != [] && path[0] == SLASH && (|path| > 1 ==> path[|path| - 1] != SLASH)
    && forall i :: 1 <= i < |path| ==> path[i] != 0 && !(path[i] == SLASH && path[i - 1] == SLASH)
  }

  /** The name a state volume is mounted under. */
  function MountComponent(id: Str): Option<Str> {
    var name := StripPrefix(id, STATE_PREFIX);
    if name.None? || name.value == [] || |name.value| > STRING_LEN || SLASH in name.value || 0 in name.value then None
    else name
  }

  /** Does a VFS root reach a state volume? Undecided when the volume's id names no mount. */
  function CoveredBy(root: Str, state: Str): Option<bool> {
    if root == STATE_PATH then Some(true)
    else
      var rest := StripPrefix(root, STATE_DIR);
      if rest.None? then Some(false)
      else
        var name := MountComponent(state);
        if name.None? then None else Some(FirstComponent(rest.value) == name.value)
  }

  /** The graph name of a process. */
  function ServiceOf(x: Process): Str {
    if x.serviceId == [] then x.name else x.serviceId
  }
}
