/** Constants, field widths and the error-code table of the TFTP header (RFC 1350). */
module TftpDefs {
  import opened Wrappers

  /** An octet on the wire or in a C `char` buffer. */
  type Byte = x: int | 0 <= x < 0x100

  /** The value of a `u_int16_t` header field. */
  type U16 = x: int | 0 <= x < 0x1_0000

  predicate NoNul(s: seq<Byte>)
  {
    forall i :: 0 <= i < |s| ==> s[i] != 0
  }

  /** The bytes of a C string up to (not including) its terminating NUL. */
  type CString = s: seq<Byte> | NoNul(s)

  const BlockSize: nat := 512

  /** A DATA payload: at most one block. */
  type Block = s: seq<Byte> | |s| <= BlockSize

  const OpRrq: U16 := 1
  const OpWrq: U16 := 2
  const OpData: U16 := 3
  const OpAck: U16 := 4
  const OpErr: U16 := 5

  predicate IsOpcode(op: int)
  {
    op == OpRrq || op == OpWrq || op == OpData || op == OpAck || op == OpErr
  }

  /** "netascii", "octet" and "mail"; the model treats a mode as an opaque string. */
  const ModeNetascii: CString := [0x6E, 0x65, 0x74, 0x61, 0x73, 0x63, 0x69, 0x69]
  const ModeOctet: CString := [0x6F, 0x63, 0x74, 0x65, 0x74]
  const ModeMail: CString := [0x6D, 0x61, 0x69, 0x6C]

  const TftpPort: nat := 69

  /** Storing an `int` into a `u_int16_t` field keeps it modulo 2^16; Dafny's `%` is
      Euclidean, so this is also right for negative values. */
  function WireBlock(n: int): U16
  {
    n % 0x1_0000
  }

  /** The 16-bit field is a counter modulo 2^16: the successor of 65535 on the wire is 0. */
  lemma WireBlockSucc(n: int)
    ensures WireBlock(n + 1) == if WireBlock(n) == 0xFFFF then 0 else WireBlock(n) + 1
  {
  }

  /** Error codes 0..7 and their texts. */
  const ErrCodes: seq<string> := [
    "Undef",
    "File not found",
    "Access violation",
    "Disk full or allocation exceeded",
    "Illegal TFTP operation",
    "Unknown transfer ID",
    "File already exists",
    "No such user"
  ]

  /** The text for an error code, or None (the NULL pointer) outside the table. */
  function ErrToStr(err: int): (r: Option<string>)
    ensures r.None? <==> err < 0 || err > 7
    ensures r.Some? ==> |ErrCodes| == 8 && r.value == ErrCodes[err]
  {
    if err < 0 || err > 7 then None else Some(ErrCodes[err])
  }

  /** The lookup agrees with the error table of RFC 1350's appendix, code by code, and
      every code names a different condition. */
  lemma ErrToStrTable()
    ensures ErrToStr(0) == Some("Undef")
    ensures ErrToStr(1) == Some("File not found")
    ensures ErrToStr(2) == Some("Access violation")
    ensures ErrToStr(3) == Some("Disk full or allocation exceeded")
    ensures ErrToStr(4) == Some("Illegal TFTP operation")
    ensures ErrToStr(5) == Some("Unknown transfer ID")
    ensures ErrToStr(6) == Some("File already exists")
    ensures ErrToStr(7) == Some("No such user")
    ensures forall i, j :: 0 <= i < j < 8 ==> ErrToStr(i) != ErrToStr(j)
  {
  }
}
