/** The program's entry: scan the arguments for `-g` or `-p`, connect, transfer. */
module Cli {
  import opened Wrappers
  import opened TftpDefs
  import opened Engine
  import opened Client

  const FlagGet: CString := [0x2D, 0x67]   // "-g"
  const FlagPut: CString := [0x2D, 0x70]   // "-p"

  predicate IsFlag(a: CString)
  {
    a == FlagGet || a == FlagPut
  }

  /** argv[i]; the slot after the last argument holds NULL. */
  function Arg(argv: seq<CString>, i: nat): Option<CString>
  {
    if i < |argv| then Some(argv[i]) else None
  }

  /** The position of the first `-g` or `-p`, the program name included in the search. */
  function FirstFlag(argv: seq<CString>): (r: Option<nat>)
    ensures r.Some? ==>
              r.value < |argv| && IsFlag(argv[r.value]) &&
              forall j :: 0 <= j < r.value ==> !IsFlag(argv[j])
    ensures r.None? ==> forall j :: 0 <= j < |argv| ==> !IsFlag(argv[j])
  {
    if |argv| == 0 then None
    else if IsFlag(argv[0]) then Some(0)
    else match FirstFlag(argv[1..])
      case None => None
      case Some(k) => Some(k + 1)
  }

  /** Scan the arguments for the direction of the transfer: the first flag gives the type
      and the two arguments after it the file and the host; without a flag the type
      stays -1 and both are absent. */
  method ScanArgs(argv: seq<CString>) returns (typ: int, fname: Option<CString>, hostname: Option<CString>)
    ensures match FirstFlag(argv)
            case None => typ == -1 && fname.None? && hostname.None?
            case Some(i) =>
              typ == (if argv[i] == FlagGet then TypeGet else TypePut) &&
              fname == Arg(argv, i + 1) && hostname == Arg(argv, i + 2)
  {
    typ, fname, hostname := -1, None, None;
    var argc := |argv|;
    var k := 0;
    while argc > 0
      invariant 0 <= k <= |argv| && argc == |argv| - k
      invariant forall j :: 0 <= j < k ==> !IsFlag(argv[j])
    {
      if argv[k] == FlagGet {
        fname, hostname := Arg(argv, k + 1), Arg(argv, k + 2);
        typ := TypeGet;
        return;
      } else if argv[k] == FlagPut {
        fname, hostname := Arg(argv, k + 1), Arg(argv, k + 2);
        typ := TypePut;
        return;
      }
      argc := argc - 1;
      k := k + 1;
    }
  }

  /** The arguments name a file and a host after the first flag. */
  predicate ArgsOk(argv: seq<CString>)
  {
    FirstFlag(argv).Some? && FirstFlag(argv).value + 2 < |argv|
  }

  /** The whole transfer that a good command line starts, in "octet" mode. */
  function CommandTransfer(argv: seq<CString>, contents: seq<Byte>, maxRetries: nat, events: seq<Event>)
    : (seq<seq<Byte>>, Session)
    requires ArgsOk(argv)
  {
    var i := FirstFlag(argv).value;
    var kind := if argv[i] == FlagGet then Get else Put;
    Exchange(Init(kind, argv[i + 1], ModeOctet, if kind == Put then contents else []),
             events, maxRetries)
  }

  /** The program: a usage error or a failed connect returns -1 with nothing sent;
      otherwise the transfer runs and 0 is returned exactly when it is Done. `sent`
      is every datagram the program sent. */
  method Execute(argv: seq<CString>, opens: bool, contents: seq<Byte>, maxRetries: nat,
                 events: seq<Event>)
    returns (retval: int, sent: seq<seq<Byte>>)
    ensures !(ArgsOk(argv) && opens) ==> retval == -1 && sent == []
    ensures ArgsOk(argv) && opens ==>
              sent == CommandTransfer(argv, contents, maxRetries, events).0 &&
              (retval == 0 <==> CommandTransfer(argv, contents, maxRetries, events).1.phase == Done)
    ensures retval == 0 || retval == -1
  {
    var typ, fname, hostname := ScanArgs(argv);
    if fname.None? || hostname.None? {
      // no file or no host after the flag: usage error
      return -1, [];
    }
    var tc := Connect(typ, fname, Some(ModeOctet), hostname, opens, contents);
    if tc == null {
      return -1, [];
    }
    var report;
    retval, report := Transfer(tc, maxRetries, events);
    sent := tc.sent;
  }
}
