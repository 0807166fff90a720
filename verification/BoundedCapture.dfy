/** Capturing the two output streams of a child process in bounded memory. */
module BoundedCapture {
  import opened Wrappers

  newtype Byte = x: int | 0 <= x < 256

  const MAX_CAPTURE_BYTES: nat := 32768

  const TRUNCATION_MARK := "\n[output truncated]"

  /** What a drain holds: a prefix of what it read, and whether it read more. */
  datatype Drained = Drained(data: seq<Byte>, truncated: bool)

  function Take(bytes: seq<Byte>, n: nat): seq<Byte> {
    if n <= |bytes| then bytes[..n] else bytes
  }

  /** The capture of a whole stream, said without chunks. */
  function CaptureOf(stream: seq<Byte>): Drained {
    Drained(Take(stream, MAX_CAPTURE_BYTES), |stream| > MAX_CAPTURE_BYTES)
  }

  function Available(d: Drained): nat {
    if |d.data| < MAX_CAPTURE_BYTES then MAX_CAPTURE_BYTES - |d.data| else 0
  }

  /** One chunk: as much of it as there is room for. */
  function Absorb(d: Drained, chunk: seq<Byte>): Drained {
    Drained(d.data + Take(chunk, Available(d)), d.truncated || |chunk| > Available(d))
  }

  /** Chunk by chunk gives the capture of the whole, however the stream was cut. */
  lemma AbsorbExtendsCapture(stream: seq<Byte>, chunk: seq<Byte>)
    ensures Absorb(CaptureOf(stream), chunk) == CaptureOf(stream + chunk)
  {
  }

  /** The text handed on, with a mark at its end when something is missing. */
  function TextOf(decode: seq<Byte> -> string, d: Drained): string {
    decode(d.data) + (if d.truncated then TRUNCATION_MARK else "")
  }

  // ---------------------------------------------------------------- one reader, as a loop

  datatype Read = Chunk(bytes: seq<Byte>) | Eof | ReadFails

  /** The bytes delivered before the stream ends or fails. */
  function Delivered(inputs: seq<Read>): seq<Byte> {
    if inputs == [] || !inputs[0].Chunk? then [] else inputs[0].bytes + Delivered(inputs[1..])
  }

  /** How the reads end: with an end of file, with a failure, or cut off by a stop. */
  function Ending(inputs: seq<Read>): Option<Read> {
    if inputs == [] then None else if inputs[0].Chunk? then Ending(inputs[1..]) else Some(inputs[0])
  }

  class BoundedDrain {
    var data: seq<Byte>
    var truncated: bool
    var failed: bool
    var done: bool

    constructor ()
      ensures data == [] && !truncated && !failed && !done
    {
      data, truncated, failed, done := [], false, false, false;
    }

    ghost function Held(): Drained
      reads this
    {
      Drained(data, truncated)
    }

    /** The locked part of one round. */
    method Keep(chunk: seq<Byte>)
      modifies this`data, this`truncated
      ensures Held() == Absorb(old(Held()), chunk)
    {
      var available := if |data| < MAX_CAPTURE_BYTES then MAX_CAPTURE_BYTES - |data| else 0;
      data := data + Take(chunk, available);
      truncated := truncated || |chunk| > available;
    }

    /** Reads until the end, a failure, or a stop after the listed reads; then closes the stream. */
    method ReadStream(inputs: seq<Read>, closeFails: bool)
      requires Held() == CaptureOf([]) && !failed && !done
      modifies this
      ensures Held() == CaptureOf(Delivered(inputs)) && |data| <= MAX_CAPTURE_BYTES && done
      ensures truncated <==> |Delivered(inputs)| > 32768
      ensures data == if |Delivered(inputs)| > 32768 then Delivered(inputs)[..32768] else Delivered(inputs)
      ensures failed <==> closeFails || Ending(inputs) == Some(ReadFails)
    {
      var i := 0;
      ghost var seen: seq<Byte> := [];
      while i < |inputs| && inputs[i].Chunk?
        invariant 0 <= i <= |inputs| && !failed && !done
        invariant Held() == CaptureOf(seen)
        invariant Delivered(inputs) == seen + Delivered(inputs[i..])
        invariant Ending(inputs) == Ending(inputs[i..])
      {
        Keep(inputs[i].bytes);
        AbsorbExtendsCapture(seen, inputs[i].bytes);
        seen := DeliverOne(inputs, i, seen);
        i := i + 1;
      }
      assert Delivered(inputs[i..]) == [];
      if i < |inputs| && inputs[i].ReadFails? {
        failed := true;
      }
      if closeFails {
        failed := true;
      }
      done := true;
    }
  }

  lemma DeliverOne(inputs: seq<Read>, i: nat, seen: seq<Byte>) returns (now: seq<Byte>)
    requires i < |inputs| && inputs[i].Chunk?
    ensures now == seen + inputs[i].bytes
    ensures seen + Delivered(inputs[i..]) == now + Delivered(inputs[i + 1..])
    ensures Ending(inputs[i..]) == Ending(inputs[i + 1..])
  {
    assert inputs[i..][1..] == inputs[i + 1..];
    now := seen + inputs[i].bytes;
  }

  // ---------------------------------------------------------------- two readers and the waiting thread

  datatype ReaderPc = Reading | Closing | Closed | Done

  /** `seen` and `atEnd` record everything the reader was given, and whether it met the end. */
  datatype Reader = Reader(pc: ReaderPc, held: Drained, failed: bool, seen: seq<Byte>, atEnd: bool)

  const FRESH_READER := Reader(Reading, Drained([], false), false, [], false)

  /** The waiting thread looks at one reader's flag at a time, always the first reader first. */
  datatype WaiterPc =
    | Waiting
    | Exited(code: int, doneSeen: nat)
    | Finishing(code: int, intactSeen: nat)
    | Collecting(code: int, texts: seq<string>)
    | Returned(code: int, texts: seq<string>)
    | Raised

  datatype State = State(readers: seq<Reader>, waiter: WaiterPc, stopped: bool)

  const INITIAL := State([FRESH_READER, FRESH_READER], Waiting, false)

  datatype Move =
    | GetChunk(reader: nat, bytes: seq<Byte>)
    | GetEof(reader: nat)
    | GetFails(reader: nat)
    | SeeStopped(reader: nat)
    | Close(reader: nat, fails: bool)
    | SetDone(reader: nat)
    | PollExit(code: int)
    | LookDone
    | LookFailed
    | Collect
    | GiveUp
    | Stop

  predicate Enabled(s: State, move: Move) {
    match move
    case GetChunk(r, bytes) => r < |s.readers| && s.readers[r].pc.Reading? && bytes != []
    case GetEof(r) => r < |s.readers| && s.readers[r].pc.Reading?
    case GetFails(r) => r < |s.readers| && s.readers[r].pc.Reading?
    case SeeStopped(r) => r < |s.readers| && s.readers[r].pc.Reading? && s.stopped
    case Close(r, _) => r < |s.readers| && s.readers[r].pc.Closing?
    case SetDone(r) => r < |s.readers| && s.readers[r].pc.Closed?
    case PollExit(_) => s.waiter.Waiting?
    case LookDone => s.waiter.Exited? && s.waiter.doneSeen < |s.readers|
    case LookFailed => s.waiter.Finishing? && s.waiter.intactSeen < |s.readers|
    case Collect => s.waiter.Collecting? && |s.waiter.texts| < |s.readers|
    case GiveUp => !s.waiter.Returned?
    case Stop => s.waiter.Returned? || s.waiter.Raised?
  }

  function Put(s: State, r: nat, reader: Reader): State
    requires r < |s.readers|
  {
    s.(readers := s.readers[r := reader])
  }

  function Step(decode: seq<Byte> -> string, s: State, move: Move): State
    requires Enabled(s, move)
  {
    match move
    case GetChunk(r, bytes) =>
      var reader := s.readers[r];
      Put(s, r, reader.(held := Absorb(reader.held, bytes), seen := reader.seen + bytes))
    case GetEof(r) => Put(s, r, s.readers[r].(pc := Closing, atEnd := true))
    case GetFails(r) => Put(s, r, s.readers[r].(pc := Closing, failed := true))
    case SeeStopped(r) => Put(s, r, s.readers[r].(pc := Closing))
    case Close(r, fails) => Put(s, r, s.readers[r].(pc := Closed, failed := s.readers[r].failed || fails))
    case SetDone(r) => Put(s, r, s.readers[r].(pc := Done))
    case PollExit(code) => s.(waiter := Exited(code, 0))
    case LookDone =>
      if !s.readers[s.waiter.doneSeen].pc.Done? then s.(waiter := Waiting)
      else if s.waiter.doneSeen + 1 < |s.readers| then s.(waiter := s.waiter.(doneSeen := s.waiter.doneSeen + 1))
      else s.(waiter := Finishing(s.waiter.code, 0))
    case LookFailed =>
      if s.readers[s.waiter.intactSeen].failed then s.(waiter := Raised)
      else if s.waiter.intactSeen + 1 < |s.readers| then s.(waiter := s.waiter.(intactSeen := s.waiter.intactSeen + 1))
      else s.(waiter := Collecting(s.waiter.code, []))
    case Collect =>
      var texts := s.waiter.texts + [TextOf(decode, s.readers[|s.waiter.texts|].held)];
      if |texts| < |s.readers| then s.(waiter := Collecting(s.waiter.code, texts))
      else s.(waiter := Returned(s.waiter.code, texts))
    case GiveUp => s.(waiter := Raised)
    case Stop => s.(stopped := true)
  }

  // ---------------------------------------------------------------- the invariant

  predicate ReaderOk(r: Reader) {
    r.held == CaptureOf(r.seen)
  }

  /** A reader that stopped before the waiter was over met the end of its stream or failed. */
  predicate EndedOk(r: Reader) {
    r.pc.Reading? || r.atEnd || r.failed
  }

  predicate Whole(r: Reader) {
    r.pc.Done? && r.atEnd && !r.failed
  }

  ghost predicate WaiterOk(decode: seq<Byte> -> string, s: State) {
    match s.waiter
    case Waiting => true
    case Exited(_, n) => n < |s.readers| && forall i | 0 <= i < n :: s.readers[i].pc.Done?
    case Finishing(_, n) =>
      && n < |s.readers|
      && (forall i | 0 <= i < |s.readers| :: s.readers[i].pc.Done?)
      && (forall i | 0 <= i < n :: !s.readers[i].failed)
    case Collecting(_, texts) =>
      && |texts| < |s.readers|
      && (forall i | 0 <= i < |s.readers| :: Whole(s.readers[i]))
      && (forall i | 0 <= i < |texts| :: texts[i] == TextOf(decode, s.readers[i].held))
    case Returned(_, texts) =>
      && |texts| == |s.readers|
      && (forall i | 0 <= i < |s.readers| :: Whole(s.readers[i]))
      && (forall i | 0 <= i < |texts| :: texts[i] == TextOf(decode, s.readers[i].held))
    case Raised => true
  }

  ghost predicate Inv(decode: seq<Byte> -> string, s: State) {
    && |s.readers| == 2
    && (forall i | 0 <= i < |s.readers| :: ReaderOk(s.readers[i]))
    && (s.stopped ==> s.waiter.Returned? || s.waiter.Raised?)
    && (!s.stopped ==> forall i | 0 <= i < |s.readers| :: EndedOk(s.readers[i]))
    && WaiterOk(decode, s)
  }

  lemma ReaderStepKeepsInv(decode: seq<Byte> -> string, s: State, move: Move)
    requires Inv(decode, s) && Enabled(s, move)
    requires move.GetChunk? || move.GetEof? || move.GetFails? || move.SeeStopped? || move.Close? || move.SetDone?
    ensures Inv(decode, Step(decode, s, move))
  {
  }

  lemma StepKeepsInv(decode: seq<Byte> -> string, s: State, move: Move)
    requires Inv(decode, s) && Enabled(s, move)
    ensures Inv(decode, Step(decode, s, move))
  {
    match move {
      case PollExit(_) | LookDone | LookFailed | Collect | GiveUp | Stop =>
      case _ => ReaderStepKeepsInv(decode, s, move);
    }
  }

  ghost predicate Runs(decode: seq<Byte> -> string, s: State, moves: seq<Move>)
    decreases |moves|
  {
    moves == [] || (Enabled(s, moves[0]) && Runs(decode, Step(decode, s, moves[0]), moves[1..]))
  }

  ghost function Exec(decode: seq<Byte> -> string, s: State, moves: seq<Move>): State
    requires Runs(decode, s, moves)
    decreases |moves|
  {
    if moves == [] then s else Exec(decode, Step(decode, s, moves[0]), moves[1..])
  }

  lemma {:induction false} RunKeepsInv(decode: seq<Byte> -> string, s: State, moves: seq<Move>)
    requires Inv(decode, s) && Runs(decode, s, moves)
    ensures Inv(decode, Exec(decode, s, moves))
    decreases |moves|
  {
    if moves == [] {
    } else {
      StepKeepsInv(decode, s, moves[0]);
      RunKeepsInv(decode, Step(decode, s, moves[0]), moves[1..]);
    }
  }

  /** Whatever the chunking and the interleaving, a result is returned only after both readers met the
      end of their streams without failure, and it holds the captures of the whole streams. */
  lemma ReturnedTextIsComplete(decode: seq<Byte> -> string, moves: seq<Move>)
    requires Runs(decode, INITIAL, moves)
    ensures var s := Exec(decode, INITIAL, moves);
      s.waiter.Returned? ==>
        && |s.waiter.texts| == |s.readers| == 2
        && forall i | 0 <= i < 2 ::
          && s.readers[i].atEnd && !s.readers[i].failed
          && s.waiter.texts[i] == TextOf(decode, CaptureOf(s.readers[i].seen))
  {
    var s := Exec(decode, INITIAL, moves);
    RunKeepsInv(decode, INITIAL, moves);
    if s.waiter.Returned? {
      assert ReaderOk(s.readers[0]) && ReaderOk(s.readers[1]);
      assert Whole(s.readers[0]) && Whole(s.readers[1]);
    }
  }

  // ---------------------------------------------------------------- complete output

  predicate EndsWith(text: string, suffix: string) {
    |suffix| <= |text| && text[|text| - |suffix|..] == suffix
  }

  /** The test on setup output: neither text may carry the truncation mark. */
  predicate IsComplete(texts: seq<string>) {
    forall t <- texts :: !EndsWith(t, TRUNCATION_MARK)
  }

  lemma MarkShows(decode: seq<Byte> -> string, stream: seq<Byte>)
    ensures |stream| > MAX_CAPTURE_BYTES ==> EndsWith(TextOf(decode, CaptureOf(stream)), TRUNCATION_MARK)
    ensures |stream| <= MAX_CAPTURE_BYTES ==> TextOf(decode, CaptureOf(stream)) == decode(stream)
  {
    var kept := decode(CaptureOf(stream).data);
    assert (kept + TRUNCATION_MARK)[|kept|..] == TRUNCATION_MARK;
    if |stream| <= MAX_CAPTURE_BYTES {
      assert CaptureOf(stream).data == stream && kept + "" == kept;
    }
  }

  /** Output that the test accepts is the whole of both streams. */
  lemma AcceptedOutputIsWhole(decode: seq<Byte> -> string, moves: seq<Move>)
    requires Runs(decode, INITIAL, moves)
    ensures var s := Exec(decode, INITIAL, moves);
      s.waiter.Returned? && IsComplete(s.waiter.texts) ==>
        |s.waiter.texts| == |s.readers| == 2 && forall i | 0 <= i < 2 :: s.waiter.texts[i] == decode(s.readers[i].seen)
  {
    ReturnedTextIsComplete(decode, moves);
    var s := Exec(decode, INITIAL, moves);
    if s.waiter.Returned? && IsComplete(s.waiter.texts) {
      forall i | 0 <= i < 2 ensures s.waiter.texts[i] == decode(s.readers[i].seen) {
        assert s.waiter.texts[i] in s.waiter.texts;
        MarkShows(decode, s.readers[i].seen);
      }
    }
  }

  /** The test errs only by refusing: a short stream may itself end in the mark. */
  lemma WholeOutputMayBeRefused(decode: seq<Byte> -> string, out: seq<Byte>, err: seq<Byte>)
    requires |out| <= MAX_CAPTURE_BYTES && |err| <= MAX_CAPTURE_BYTES
    ensures var texts := [TextOf(decode, CaptureOf(out)), TextOf(decode, CaptureOf(err))];
      IsComplete(texts) <==>
        !EndsWith(decode(out), "\n[output truncated]") && !EndsWith(decode(err), "\n[output truncated]")
  {
    var texts := [TextOf(decode, CaptureOf(out)), TextOf(decode, CaptureOf(err))];
    MarkShows(decode, out);
    MarkShows(decode, err);
    assert texts[0] in texts && texts[1] in texts;
    assert texts[0] == decode(out) && texts[1] == decode(err);
  }
}
