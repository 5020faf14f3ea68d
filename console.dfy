/**
 * The operator console: one input line, lower-cased and split into words, becomes
 * one intent, which is then carried out on the remote. Parsing a number is left to
 * the caller, as `parseFloat`.
 */
module Console {
  import opened Wrappers
  import opened Bytes
  import opened Text
  import Session
  import Remote

  /** Why a line produced no action. */
  datatype Problem = InvalidVolumeValue | MissingVolume | MissingSource | InvalidCommand

  /** What one line asks for. */
  datatype Intent =
    | Skip                          // an empty line
    | Quit                          // `q` or `quit`
    | DimIntent(value: Option<bool>) // `dim`, `dim on`, `dim off`
    | VolumeIntent(db: real)        // `volume <dB>`
    | SourceIntent(name: string)    // `source <name>`
    | Status                        // `status`
    | Complaint(problem: Problem)   // a message to the operator instead

  /** The lower-cased words of a line. */
  function LowerWords(words: seq<string>): seq<string> {
    seq(|words|, i requires 0 <= i < |words| => Lower(words[i]))
  }

  /** The decision made for one line, given as its words. A command needing an argument
    * takes it from the second word, lower-cased; further words are ignored. */
  function Dispatch(words: seq<string>, parseFloat: string -> Option<real>): (r: Intent)
    ensures r.Skip? <==> words == []
    ensures r.Quit? <==> words != [] && Lower(words[0]) in {"q", "quit"}
    ensures r.DimIntent? <==> words != [] && Lower(words[0]) == "dim"
    ensures r.DimIntent? ==> r.value == (if |words| > 1 && Lower(words[1]) == "on" then Some(true)
                                         else if |words| > 1 && Lower(words[1]) == "off" then Some(false)
                                         else None)
    ensures r.VolumeIntent? ==> |words| > 1 && Lower(words[0]) == "volume" &&
                                parseFloat(Lower(words[1])) == Some(r.db)
    ensures |words| > 1 && Lower(words[0]) == "volume" && parseFloat(Lower(words[1])).Some? ==>
              r == VolumeIntent(parseFloat(Lower(words[1])).value)
    ensures r.SourceIntent? ==> |words| > 1 && Lower(words[0]) == "source" && r.name == Lower(words[1])
    ensures |words| > 1 && Lower(words[0]) == "source" ==> r == SourceIntent(Lower(words[1]))
    ensures r.Status? <==> words != [] && Lower(words[0]) == "status"
  {
    if words == [] then Skip
    else
      var cmd := Lower(words[0]);
      var arg := if |words| > 1 then Some(Lower(words[1])) else None;
      if cmd == "q" || cmd == "quit" then Quit
      else if cmd == "dim" then
        if arg == Some("on") then DimIntent(Some(true))
        else if arg == Some("off") then DimIntent(Some(false))
        else DimIntent(None)
      else if cmd == "volume" then
        if arg.None? then Complaint(MissingVolume)
        else if parseFloat(arg.value).None? then Complaint(InvalidVolumeValue)
        else VolumeIntent(parseFloat(arg.value).value)
      else if cmd == "source" then
        if arg.None? then Complaint(MissingSource) else SourceIntent(arg.value)
      else if cmd == "status" then Status
      else Complaint(InvalidCommand)
  }

  /** Letter case never changes the decision. */
  lemma DispatchIgnoresCase(words: seq<string>, parseFloat: string -> Option<real>)
    ensures Dispatch(LowerWords(words), parseFloat) == Dispatch(words, parseFloat)
  {
    if words != [] {
      LowerIdempotent(words[0]);
      if |words| > 1 {
        LowerIdempotent(words[1]);
      }
    }
  }

  /** Each command word with its argument yields the intent it names, and a command needing an
    * argument without one yields a complaint. */
  lemma DispatchCommands(arg: string, parseFloat: string -> Option<real>)
    ensures Dispatch([], parseFloat) == Skip
    ensures Dispatch(["quit"], parseFloat) == Quit && Dispatch(["Q"], parseFloat) == Quit
    ensures Dispatch(["dim"], parseFloat) == DimIntent(None)
    ensures Dispatch(["dim", "ON"], parseFloat) == DimIntent(Some(true))
    ensures Dispatch(["dim", "off"], parseFloat) == DimIntent(Some(false))
    ensures Dispatch(["volume"], parseFloat) == Complaint(MissingVolume)
    ensures Dispatch(["source"], parseFloat) == Complaint(MissingSource)
    ensures Dispatch(["source", arg], parseFloat) == SourceIntent(Lower(arg))
    ensures Dispatch(["status", arg], parseFloat) == Status
  {
    assert Lower("ON") == "on";
    assert Lower("Q") == "q";
    assert Lower("quit") == "quit";
    assert Lower("dim") == "dim";
    assert Lower("off") == "off";
    assert Lower("volume") == "volume";
    assert Lower("source") == "source";
    assert Lower("status") == "status";
  }

  /**
   * Carries out one intent on the remote; `ack` is the buffer received while a command
   * waits for its acknowledgement. Returns whether the operator asked to quit.
   */
  method Perform(remote: Remote.Dp564Remote, intent: Intent, ack: Option<seq<byte>>) returns (quit: bool)
    modifies remote
    ensures quit <==> intent.Quit?
    ensures var st := old(remote.State());
      remote.State() ==
        match intent
        case DimIntent(v) => Session.Dim(st, v, ack).state
        case VolumeIntent(db) => Session.SetVolumeDb(st, db, ack).state
        case SourceIntent(name) => Session.SetSource(st, name, ack).state
        case _ => st
    ensures var st := old(remote.State());
      remote.sent == old(remote.sent) +
        match intent
        case DimIntent(v) => Session.Dim(st, v, ack).sent
        case VolumeIntent(db) => Session.SetVolumeDb(st, db, ack).sent
        case SourceIntent(name) => Session.SetSource(st, name, ack).sent
        case _ => []
  {
    quit := false;
    match intent {
      case Quit => quit := true;
      case DimIntent(v) => remote.Dim(v, ack);
      case VolumeIntent(db) => remote.SetVolumeDb(db, ack);
      case SourceIntent(name) => remote.SetSource(name, ack);
      case _ =>
    }
  }
}
