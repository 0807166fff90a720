/** Downloading one pinned artifact: stream, hash, check, and publish under its name at once. */
module Downloads {
  import opened Wrappers
  import opened BoundedCapture

  const DOWNLOAD_DEADLINE_SECONDS: real := 1800.0

  datatype Artifact = Artifact(httpsUrl: bool, sha256: string, filename: string, sizeBytes: nat)

  /** A hash fed piece by piece. */
  datatype Hash<!H> = Hash(init: H, update: (H, seq<Byte>) -> H, hexdigest: H -> string)

  /** Feeding a hash in two steps is feeding it once. */
  ghost predicate Incremental<H(!new)>(hash: Hash<H>) {
    forall h, a, b :: hash.update(hash.update(h, a), b) == hash.update(h, a + b)
  }

  predicate StartsEmpty<H(==)>(hash: Hash<H>) {
    hash.update(hash.init, []) == hash.init
  }

  function HexOf<H>(hash: Hash<H>, bytes: seq<Byte>): string {
    hash.hexdigest(hash.update(hash.init, bytes))
  }

  function LowerHex(text: string): string {
    seq(|text|, i requires 0 <= i < |text| => if 'A' <= text[i] <= 'F' then (text[i] as int + 32) as char else text[i])
  }

  // ---------------------------------------------------------------- the environment

  /** A look at the cancel event and the deadline. */
  datatype Check = Fine | CancelSeen | Late

  /** One round of the loop: a look, a read, another look, and whether the bytes read could be stored
      and reported.  A read of no bytes is the end; None is a failed read. */
  datatype Round = Round(before: Check, bytes: Option<seq<Byte>>, after: Check, stored: bool, reported: bool)

  /** Everything the environment decides.  After the listed rounds the response is at its end;
      `cancelledAtFailure` is what the handler of unforeseen failures finds. */
  datatype Script = Script(
    first: Check, second: Check, connected: bool, third: Check, httpsResponse: bool,
    firstReported: bool, tempMade: bool, rounds: seq<Round>,
    beforeDigest: Check, last: Check, replaced: bool, cancelledAtFailure: bool, unlinked: bool)

  datatype Error = Insecure | BadDeadline | Cancelled | DeadlineExceeded | DigestMismatch | SizeMismatch | Broken

  function ErrorOf(check: Check): Option<Error> {
    match check
    case Fine => None
    case CancelSeen => Some(Cancelled)
    case Late => Some(DeadlineExceeded)
  }

  // ---------------------------------------------------------------- what should happen

  predicate IsEnd(round: Round) {
    round.bytes == Some([])
  }

  /** The bytes received before the end or a failure. */
  function Received(rounds: seq<Round>): seq<Byte> {
    if rounds == [] || rounds[0].bytes.None? || IsEnd(rounds[0]) then []
    else rounds[0].bytes.value + Received(rounds[1..])
  }

  /** The response ends without a failure, every look was fine, every chunk was stored and reported. */
  predicate Clean(rounds: seq<Round>) {
    rounds == [] || (FineRound(rounds[0]) && (IsEnd(rounds[0]) || Clean(rounds[1..])))
  }

  predicate FineRound(round: Round) {
    && round.before.Fine? && round.bytes.Some? && round.after.Fine?
    && (IsEnd(round) || (round.stored && round.reported))
  }

  // ---------------------------------------------------------------- which error it should be

  function Seen(check: Check): Option<Error> {
    if check == CancelSeen then Some(Cancelled) else if check == Late then Some(DeadlineExceeded) else None
  }

  function Unless(fine: bool, error: Error): Option<Error> {
    if fine then None else Some(error)
  }

  /** What can go wrong in one round, in its order. */
  function RoundTroubles(round: Round): seq<Option<Error>> {
    [Seen(round.before)] +
    (if round.bytes.None? then [Some(Broken)]
     else [Seen(round.after)] + (if IsEnd(round) then [] else [Unless(round.stored && round.reported, Broken)]))
  }

  function StreamTroubles(rounds: seq<Round>): seq<Option<Error>> {
    if rounds == [] then []
    else
      RoundTroubles(rounds[0])
      + (if rounds[0].bytes.None? || IsEnd(rounds[0]) then [] else StreamTroubles(rounds[1..]))
  }

  function OpeningTroubles(script: Script): seq<Option<Error>> {
    [Seen(script.first), Seen(script.second), Unless(script.connected, Broken), Seen(script.third),
     Unless(script.httpsResponse, Insecure), Unless(script.firstReported && script.tempMade, Broken)]
  }

  function ClosingTroubles<H>(hash: Hash<H>, artifact: Artifact, script: Script): seq<Option<Error>> {
    [Seen(script.beforeDigest),
     Unless(HexOf(hash, Received(script.rounds)) == LowerHex(artifact.sha256), DigestMismatch),
     Unless(|Received(script.rounds)| == artifact.sizeBytes, SizeMismatch),
     Seen(script.last), Unless(script.replaced, Broken)]
  }

  /** What can go wrong in a download, in its order. */
  function Troubles<H>(hash: Hash<H>, artifact: Artifact, script: Script): seq<Option<Error>> {
    OpeningTroubles(script) + (StreamTroubles(script.rounds) + ClosingTroubles(hash, artifact, script))
  }

  /** The first thing that does go wrong. */
  function First(troubles: seq<Option<Error>>): Option<Error> {
    if troubles == [] then None else if troubles[0].Some? then troubles[0] else First(troubles[1..])
  }

  lemma {:induction false} FirstOfBoth(a: seq<Option<Error>>, b: seq<Option<Error>>)
    ensures First(a + b) == if First(a).Some? then First(a) else First(b)
  {
    if a == [] {
      assert a + b == b;
    } else {
      FirstOfBoth(a[1..], b);
      assert (a + b)[1..] == a[1..] + b;
    }
  }

  lemma FirstIs(trouble: Option<Error>, rest: seq<Option<Error>>)
    ensures First([trouble] + rest) == if trouble.Some? then trouble else First(rest)
  {
    assert ([trouble] + rest)[1..] == rest;
  }

  lemma FirstInRound(round: Round)
    ensures First(RoundTroubles(round)) ==
      if Seen(round.before).Some? then Seen(round.before)
      else if round.bytes.None? then Some(Broken)
      else if Seen(round.after).Some? then Seen(round.after)
      else if IsEnd(round) || (round.stored && round.reported) then None
      else Some(Broken)
  {
    var stored := if IsEnd(round) then [] else [Unless(round.stored && round.reported, Broken)];
    FirstIs(Seen(round.before), if round.bytes.None? then [Some(Broken)] else [Seen(round.after)] + stored);
    FirstIs(Seen(round.after), stored);
  }

  lemma FirstInOpening(script: Script)
    ensures First(OpeningTroubles(script)) ==
      if Seen(script.first).Some? then Seen(script.first)
      else if Seen(script.second).Some? then Seen(script.second)
      else if !script.connected then Some(Broken)
      else if Seen(script.third).Some? then Seen(script.third)
      else if !script.httpsResponse then Some(Insecure)
      else if !script.firstReported || !script.tempMade then Some(Broken)
      else None
  {
    var all := OpeningTroubles(script);
    FirstIs(all[0], all[1..]);
    FirstIs(all[1], all[2..]);
    FirstIs(all[2], all[3..]);
    FirstIs(all[3], all[4..]);
    FirstIs(all[4], all[5..]);
  }

  lemma FirstInClosing<H>(hash: Hash<H>, artifact: Artifact, script: Script)
    ensures First(ClosingTroubles(hash, artifact, script)) ==
      if Seen(script.beforeDigest).Some? then Seen(script.beforeDigest)
      else if HexOf(hash, Received(script.rounds)) != LowerHex(artifact.sha256) then Some(DigestMismatch)
      else if |Received(script.rounds)| != artifact.sizeBytes then Some(SizeMismatch)
      else if Seen(script.last).Some? then Seen(script.last)
      else if !script.replaced then Some(Broken)
      else None
  {
    var all := ClosingTroubles(hash, artifact, script);
    FirstIs(all[0], all[1..]);
    FirstIs(all[1], all[2..]);
    FirstIs(all[2], all[3..]);
    FirstIs(all[3], all[4..]);
  }

  lemma FirstInTurn<H>(hash: Hash<H>, artifact: Artifact, script: Script)
    ensures First(Troubles(hash, artifact, script)) ==
      if First(OpeningTroubles(script)).Some? then First(OpeningTroubles(script))
      else if First(StreamTroubles(script.rounds)).Some? then First(StreamTroubles(script.rounds))
      else First(ClosingTroubles(hash, artifact, script))
  {
    FirstOfBoth(OpeningTroubles(script), StreamTroubles(script.rounds) + ClosingTroubles(hash, artifact, script));
    FirstOfBoth(StreamTroubles(script.rounds), ClosingTroubles(hash, artifact, script));
  }

  lemma NextRound(rounds: seq<Round>, i: nat, seen: seq<Byte>)
    requires i < |rounds|
    ensures var round, rest := rounds[i], rounds[i + 1..];
      && (Clean(rounds[i..]) <==> FineRound(round) && (IsEnd(round) || Clean(rest)))
      && (FineRound(round) ==>
            seen + Received(rounds[i..]) == seen + round.bytes.value + (if IsEnd(round) then [] else Received(rest)))
  {
  }

  predicate ShouldPublish<H>(hash: Hash<H>, artifact: Artifact, deadline: real, script: Script) {
    && artifact.httpsUrl && 0.0 < deadline <= DOWNLOAD_DEADLINE_SECONDS
    && CanStream(script)
    && Clean(script.rounds)
    && script.beforeDigest.Fine?
    && IsPinned(hash, artifact, Received(script.rounds))
    && script.last.Fine? && script.replaced
  }

  predicate CanStream(script: Script) {
    && script.first.Fine? && script.second.Fine? && script.connected && script.third.Fine?
    && script.httpsResponse && script.firstReported && script.tempMade
  }

  predicate IsPinned<H>(hash: Hash<H>, artifact: Artifact, bytes: seq<Byte>) {
    HexOf(hash, bytes) == LowerHex(artifact.sha256) && |bytes| == artifact.sizeBytes
  }

  ghost predicate Increasing(reports: seq<nat>) {
    forall i, j | 0 <= i < j < |reports| :: reports[i] < reports[j]
  }

  lemma IncreasingSnoc(reports: seq<nat>, n: nat)
    requires Increasing(reports) && (reports != [] ==> reports[|reports| - 1] < n)
    ensures Increasing(reports + [n])
  {
  }

  lemma NextTroubles(rounds: seq<Round>, i: nat)
    requires i < |rounds|
    ensures var round := rounds[i]; var here := First(RoundTroubles(round));
      First(StreamTroubles(rounds[i..])) ==
        if here.Some? || round.bytes.None? || IsEnd(round) then here else First(StreamTroubles(rounds[i + 1..]))
  {
    assert rounds[i..][1..] == rounds[i + 1..];
    FirstOfBoth(RoundTroubles(rounds[i]), StreamTroubles(rounds[i + 1..]));
    FirstOfBoth(RoundTroubles(rounds[i]), []);
  }

  // ---------------------------------------------------------------- the download

  class Directory {
    var files: map<string, seq<Byte>>

    constructor ()
      ensures files == map[]
    {
      files := map[];
    }
  }

  /** The file being written and what has been computed along with it. */
  class Transfer<H(!new,==)> {
    const hash: Hash<H>
    var stored: seq<Byte>
    var digest: H
    var downloaded: nat
    var reports: seq<nat>

    constructor (hash: Hash<H>)
      requires StartsEmpty(hash)
      ensures this.hash == hash && stored == [] && reports == [0] && Agrees()
    {
      this.hash := hash;
      stored, digest, downloaded, reports := [], hash.init, 0, [0];
    }

    /** File, hash, count and last report agree. */
    ghost predicate Agrees()
      reads this
    {
      && digest == hash.update(hash.init, stored)
      && downloaded == |stored|
      && Increasing(reports) && reports != [] && reports[|reports| - 1] == downloaded
    }

    /** One chunk goes to the file, the hash and the count together. */
    method Add(chunk: seq<Byte>)
      requires Incremental(hash) && Agrees() && chunk != []
      modifies this
      ensures Agrees() && stored == old(stored) + chunk
    {
      stored := stored + chunk;
      digest := hash.update(digest, chunk);
      downloaded := downloaded + |chunk|;
      IncreasingSnoc(reports, downloaded);
      reports := reports + [downloaded];
    }

    /** One round of the loop; `more` tells that there is another one. */
    method Take(round: Round) returns (error: Option<Error>, more: bool)
      requires Incremental(hash) && Agrees()
      modifies this
      ensures Agrees()
      ensures error.None? <==> FineRound(round)
      ensures error == First(RoundTroubles(round))
      ensures error.Some? ==> !more
      ensures error.None? ==> more == !IsEnd(round) && stored == old(stored) + round.bytes.value
    {
      more := false;
      FirstInRound(round);
      if !round.before.Fine? {
        return ErrorOf(round.before), false;
      }
      if round.bytes.None? {
        return Some(Broken), false;
      }
      if !round.after.Fine? {
        return ErrorOf(round.after), false;
      }
      if round.bytes.value == [] {
        return None, false;
      }
      if !round.stored {
        return Some(Broken), false;
      }
      Add(round.bytes.value);
      if !round.reported {
        return Some(Broken), false;
      }
      return None, true;
    }

    /** The streaming loop. */
    method Stream(rounds: seq<Round>) returns (error: Option<Error>)
      requires Incremental(hash) && Agrees() && stored == []
      modifies this
      ensures Agrees()
      ensures error.None? <==> Clean(rounds)
      ensures error == First(StreamTroubles(rounds))
      ensures error.None? ==> stored == Received(rounds)
    {
      var i: nat := 0;
      var more := true;
      error := None;
      while more && i < |rounds|
        invariant i <= |rounds| && Agrees() && (error.Some? ==> !more)
        invariant more ==> Received(rounds) == stored + Received(rounds[i..]) && (Clean(rounds) <==> Clean(rounds[i..]))
        invariant First(StreamTroubles(rounds)) == if more then First(StreamTroubles(rounds[i..])) else error
        invariant !more ==> (error.None? <==> Clean(rounds)) && (error.None? ==> stored == Received(rounds))
        decreases |rounds| - i
      {
        ghost var before := stored;
        error, more := Take(rounds[i]);
        NextTroubles(rounds, i);
        NextRound(rounds, i, before);
        i := i + 1;
      }
    }
  }

  /** Up to the temporary file. */
  method Connect(script: Script) returns (error: Option<Error>, reports: seq<nat>)
    ensures error == First(OpeningTroubles(script))
    ensures error.None? <==> CanStream(script)
    ensures Increasing(reports)
  {
    FirstInOpening(script);
    if !script.first.Fine? { return ErrorOf(script.first), []; }
    if !script.second.Fine? { return ErrorOf(script.second), []; }
    if !script.connected { return Some(Broken), []; }
    if !script.third.Fine? { return ErrorOf(script.third), []; }
    if !script.httpsResponse { return Some(Insecure), []; }
    if !script.firstReported || !script.tempMade { return Some(Broken), [0]; }
    return None, [0];
  }

  /** After the stream: the checks on the whole file, and its publication. */
  method Publish<H(!new,==)>(transfer: Transfer<H>, dir: Directory, artifact: Artifact, temp: string, script: Script)
      returns (error: Option<Error>)
    requires transfer.Agrees() && transfer.stored == Received(script.rounds)
    requires temp in dir.files && dir.files[temp] == transfer.stored && temp != artifact.filename
    modifies dir
    ensures error == First(ClosingTroubles(transfer.hash, artifact, script))
    ensures error.None? <==>
      && script.beforeDigest.Fine? && IsPinned(transfer.hash, artifact, Received(script.rounds))
      && script.last.Fine? && script.replaced
    ensures dir.files == if error.Some? then old(dir.files)
                         else (old(dir.files) - {temp})[artifact.filename := Received(script.rounds)]
  {
    FirstInClosing(transfer.hash, artifact, script);
    if !script.beforeDigest.Fine? { return ErrorOf(script.beforeDigest); }
    if transfer.hash.hexdigest(transfer.digest) != LowerHex(artifact.sha256) { return Some(DigestMismatch); }
    if transfer.downloaded != artifact.sizeBytes { return Some(SizeMismatch); }
    if !script.last.Fine? { return ErrorOf(script.last); }
    if !script.replaced { return Some(Broken); }
    var bytes := dir.files[temp];
    dir.files := (dir.files - {temp})[artifact.filename := bytes];
    return None;
  }

  /** From the first look to the publication.  On an error the temporary file may be left behind. */
  method Fetch<H(!new,==)>(hash: Hash<H>, dir: Directory, artifact: Artifact, temp: string, script: Script)
      returns (error: Option<Error>, reports: seq<nat>)
    requires Incremental(hash) && StartsEmpty(hash) && temp !in dir.files && temp != artifact.filename
    modifies dir
    ensures error.None? <==> ShouldPublish(hash, artifact.(httpsUrl := true), 1.0, script)
    ensures error ==
      if First(OpeningTroubles(script)).Some? then First(OpeningTroubles(script))
      else if First(StreamTroubles(script.rounds)).Some? then First(StreamTroubles(script.rounds))
      else First(ClosingTroubles(hash, artifact, script))
    ensures error.None? ==> dir.files == old(dir.files)[artifact.filename := Received(script.rounds)]
    ensures error.Some? ==> dir.files - {temp} == old(dir.files)
    ensures Increasing(reports)
  {
    error, reports := Connect(script);
    if error.Some? { return; }
    var transfer := new Transfer(hash);
    error := transfer.Stream(script.rounds);
    reports := transfer.reports;
    ghost var was := dir.files;
    dir.files := dir.files[temp := transfer.stored];
    assert dir.files - {temp} == was;
    if error.Some? { return; }
    error := Publish(transfer, dir, artifact, temp, script);
  }

  /** The destination name ends up holding the pinned bytes, exactly when nothing went wrong, or is
      as it was; nothing else changes; and the reported progress strictly increases. */
  method DownloadVerified<H(!new,==)>(hash: Hash<H>, dir: Directory, artifact: Artifact, deadline: real,
                            temp: string, script: Script)
      returns (error: Option<Error>, reports: seq<nat>)
    requires Incremental(hash) && StartsEmpty(hash) && temp !in dir.files && temp != artifact.filename
    modifies dir
    ensures error.None? <==> ShouldPublish(hash, artifact, deadline, script)
    ensures error ==
      if !artifact.httpsUrl then Some(Insecure)
      else if !(0.0 < deadline <= 1800.0) then Some(BadDeadline)
      else
        var first := First(Troubles(hash, artifact, script));
        if first == Some(Broken) && script.cancelledAtFailure then Some(Cancelled) else first
    ensures error.None? ==>
      && dir.files == old(dir.files)[artifact.filename := Received(script.rounds)]
      && IsPinned(hash, artifact, dir.files[artifact.filename])
    ensures error.Some? ==> dir.files - {temp} == old(dir.files) && (temp in dir.files ==> !script.unlinked)
    ensures Increasing(reports)
  {
    reports := [];
    if !artifact.httpsUrl {
      return Some(Insecure), reports;
    }
    if !(0.0 < deadline <= DOWNLOAD_DEADLINE_SECONDS) {
      return Some(BadDeadline), reports;
    }
    FirstInTurn(hash, artifact, script);
    error, reports := Fetch(hash, dir, artifact, temp, script);
    if error == Some(Broken) && script.cancelledAtFailure {
      error := Some(Cancelled);
    }
    if error.Some? && temp in dir.files && script.unlinked {
      dir.files := dir.files - {temp};
    }
  }

  // ---------------------------------------------------------------- cancelling

  /** The looks that a download makes until its response ends. */
  function RoundLooks(rounds: seq<Round>): seq<Check> {
    if rounds == [] then []
    else [rounds[0].before, rounds[0].after] + (if IsEnd(rounds[0]) then [] else RoundLooks(rounds[1..]))
  }

  function Looks(script: Script): seq<Check> {
    [script.first, script.second, script.third] + RoundLooks(script.rounds) + [script.beforeDigest, script.last]
  }

  /** Neither a cancel nor a deadline goes back: a look after a bad look is bad. */
  ghost predicate StaysCut(looks: seq<Check>) {
    forall i, j | 0 <= i < j < |looks| :: !looks[i].Fine? ==> !looks[j].Fine?
  }

  lemma {:induction false} CleanLooks(rounds: seq<Round>)
    requires Clean(rounds)
    ensures forall c <- RoundLooks(rounds) :: c.Fine?
  {
    if rounds != [] && !IsEnd(rounds[0]) {
      CleanLooks(rounds[1..]);
    }
  }

  /** Nothing is published when any look has seen a cancel; and since a cancel stays, the last look,
      made just before the publication, sees every cancel that any look saw. */
  lemma PublishedUncancelled<H>(hash: Hash<H>, artifact: Artifact, deadline: real, script: Script)
    ensures ShouldPublish(hash, artifact, deadline, script) ==> forall c <- Looks(script) :: c.Fine?
    ensures StaysCut(Looks(script)) && script.last.Fine? ==> forall c <- Looks(script) :: c.Fine?
  {
    var looks := Looks(script);
    if ShouldPublish(hash, artifact, deadline, script) {
      CleanLooks(script.rounds);
    }
    if StaysCut(looks) && script.last.Fine? {
      assert looks[|looks| - 1].Fine?;
      forall c <- looks ensures c.Fine? {
        var i :| 0 <= i < |looks| && looks[i] == c;
      }
    }
  }
}
