/**
 * The batched owner read of central_file_map.rs: chunks of at most 256 sources, entries the owner
 * defers asked again, refusals in the codes a single read refuses with. The owner is an oracle
 * that may answer every call differently; what is proved holds of any owner unless it says not.
 */
module BatchRead {
  import opened Prelude

  type SourceRef = string

  const CENTRAL := "central:source:"
  const RESOLVE_BATCH_SOURCES: nat := 256

  datatype Error =
    | CallFailed(unknownOperation: bool, code: nat)
    | WrongCount
    | OtherSource
    | Refused(code: nat)
    | AllDeferred
    | NoText
    | Unreadable(code: nat)
    | TargetDenied

  /** A reading as replied; `made` is what its metadata and text amount to. */
  datatype Reading = Reading(source: Option<SourceRef>, hasText: bool, made: Result<nat, Error>)

  datatype Entry = Entry(source: Option<SourceRef>, deferred: bool, refusal: Option<nat>, reading: Reading)

  datatype Reply = Failed(error: Error) | Readings(entries: seq<Entry>)

  datatype Owner = Owner(single: SourceRef -> Result<Reading, Error>, batch: (nat, seq<SourceRef>) -> Reply)

  function BatchUnknown(e: Error): bool {
    e.CallFailed? && e.unknownOperation
  }

  function Checked(reply: Reply, n: nat): Result<seq<Entry>, Error> {
    match reply
    case Failed(error) => Err(error)
    case Readings(entries) => if |entries| == n then Ok(entries) else Err(WrongCount)
  }

  predicate Deferred(source: SourceRef, entry: Entry) {
    entry.deferred && entry.source == Some(source)
  }

  function BatchEntry(source: SourceRef, entry: Entry): Result<Reading, Error> {
    if entry.source != Some(source) then Err(OtherSource)
    else if entry.refusal.Some? then Err(Refused(entry.refusal.value))
    else Ok(entry.reading)
  }

  function DecodeReading(source: SourceRef, reading: Reading): Result<Option<nat>, Error> {
    if reading.source != Some(source) then Err(OtherSource)
    else if !reading.hasText then Err(NoText)
    else match reading.made
      case Err(e) => Err(e)
      case Ok(material) => Ok(Some(material))
  }

  /** read_current_for: one source, one call. */
  function ReadSingle(owner: Owner, source: SourceRef, allowed: bool): Result<Option<nat>, Error> {
    if !(CENTRAL <= source) then Ok(None)
    else if !allowed then Err(TargetDenied)
    else match owner.single(source)
      case Err(e) => Err(e)
      case Ok(reading) => DecodeReading(source, reading)
  }

  // ------------------------------------------------------------------ what answers mean

  /** What a batch entry says of the source in its place: another source is an error, a refusal is the
      owner's refusal, and anything else its reading. */
  predicate EntryMeans(source: SourceRef, entry: Entry, a: Result<Reading, Error>) {
    && (entry.source != Some(source) ==> a == Err(OtherSource))
    && (entry.source == Some(source) && entry.refusal.Some? ==> a == Err(Refused(entry.refusal.value)))
    && (entry.source == Some(source) && entry.refusal.None? ==> a == Ok(entry.reading))
  }

  /** What a reading says of the source asked for: it must be that source's and hold text, and then its
      material or why there is none. */
  predicate ReadingMeans(source: SourceRef, reading: Reading, v: Result<Option<nat>, Error>) {
    && (reading.source != Some(source) ==> v == Err(OtherSource))
    && (reading.source == Some(source) && !reading.hasText ==> v == Err(NoText))
    && (reading.source == Some(source) && reading.hasText && reading.made.Err? ==> v == Err(reading.made.error))
    && (reading.source == Some(source) && reading.hasText && reading.made.Ok? ==> v == Ok(Some(reading.made.value)))
  }

  /** A single read: nothing to say of other owners' sources, no leave to read, the owner's error, or
      what its reading means. */
  lemma SingleReadMeans(owner: Owner, source: SourceRef, allowed: bool)
    ensures var v := ReadSingle(owner, source, allowed);
            && (!(CENTRAL <= source) ==> v == Ok(None))
            && (CENTRAL <= source && !allowed ==> v == Err(TargetDenied))
            && (CENTRAL <= source && allowed && owner.single(source).Err? ==> v == Err(owner.single(source).error))
            && (CENTRAL <= source && allowed && owner.single(source).Ok? ==>
                  ReadingMeans(source, owner.single(source).value, v))
  {
  }

  // ------------------------------------------------------------------ what a run of calls answers

  /** One call: the indexes it asked and the reply it got. */
  datatype Call = Call(asked: seq<nat>, reply: Reply)

  predicate InRange(asked: seq<nat>, n: nat) {
    forall p :: 0 <= p < |asked| ==> asked[p] < n
  }

  function Refs(sources: seq<SourceRef>, asked: seq<nat>): seq<SourceRef>
    requires InRange(asked, |sources|)
  {
    seq(|asked|, p requires 0 <= p < |asked| => sources[asked[p]])
  }

  predicate AllDefer(refs: seq<SourceRef>, entries: seq<Entry>) {
    |entries| == |refs| && forall p :: 0 <= p < |refs| ==> Deferred(refs[p], entries[p])
  }

  /** What a call settles for the source in place p of what it asked; nothing when it is deferred. */
  function Settled(refs: seq<SourceRef>, reply: Reply, p: nat): Option<Result<Reading, Error>>
    requires p < |refs|
  {
    match Checked(reply, |refs|)
    case Err(e) => Some(Err(e))
    case Ok(entries) =>
      if AllDefer(refs, entries) then Some(Err(AllDeferred))
      else if Deferred(refs[p], entries[p]) then None
      else Some(BatchEntry(refs[p], entries[p]))
  }

  predicate Succeeded(call: Call) {
    Checked(call.reply, |call.asked|).Ok?
  }

  predicate Unknown(call: Call) {
    !Succeeded(call) && BatchUnknown(Checked(call.reply, |call.asked|).error)
  }

  /** The calls really made of this owner, in order, none empty and none past the owner's bound. */
  ghost predicate Made(owner: Owner, sources: seq<SourceRef>, log: seq<Call>) {
    forall k :: 0 <= k < |log| ==>
      InRange(log[k].asked, |sources|) && 0 < |log[k].asked| <= RESOLVE_BATCH_SOURCES
      && log[k].reply == owner.batch(k, Refs(sources, log[k].asked))
  }

  ghost predicate SettledBy(sources: seq<SourceRef>, log: seq<Call>, k: nat, p: nat, i: nat, a: Result<Reading, Error>)
    requires k < |log| && InRange(log[k].asked, |sources|)
  {
    p < |log[k].asked| && log[k].asked[p] == i && Settled(Refs(sources, log[k].asked), log[k].reply, p) == Some(a)
  }

  /** The answer for source i is the one some call gave to the place where it asked for it. */
  ghost predicate Justified(sources: seq<SourceRef>, log: seq<Call>, i: nat, a: Result<Reading, Error>) {
    exists k: nat, p: nat :: k < |log| && InRange(log[k].asked, |sources|) && SettledBy(sources, log, k, p, i, a)
  }

  lemma JustifiedStays(sources: seq<SourceRef>, log: seq<Call>, call: Call, i: nat, a: Result<Reading, Error>)
    requires Justified(sources, log, i, a)
    ensures Justified(sources, log + [call], i, a)
  {
    var k: nat, p: nat :| k < |log| && InRange(log[k].asked, |sources|) && SettledBy(sources, log, k, p, i, a);
    assert (log + [call])[k] == log[k];
    assert SettledBy(sources, log + [call], k, p, i, a);
  }

  predicate Clean(sources: seq<SourceRef>, call: Call) {
    && InRange(call.asked, |sources|) && Succeeded(call)
    && (forall p :: 0 <= p < |call.asked| ==> Settled(Refs(sources, call.asked), call.reply, p).Some?)
    && !AllDefer(Refs(sources, call.asked), call.reply.entries)
  }

  predicate AllClean(sources: seq<SourceRef>, log: seq<Call>) {
    forall k :: 0 <= k < |log| ==> Clean(sources, log[k])
  }

  predicate Ascends(s: seq<nat>) {
    forall a, b :: 0 <= a < b < |s| ==> s[a] < s[b]
  }

  /** pending.retain: the indexes still without an answer, in the order they were. */
  function Retained(pending: seq<nat>, answers: seq<Option<Result<Reading, Error>>>): (r: seq<nat>)
    requires InRange(pending, |answers|)
    ensures InRange(r, |answers|) && |r| <= |pending|
    ensures forall i :: i in r <==> i in pending && answers[i].None?
    ensures Ascends(pending) ==> Ascends(r)
  {
    if pending == [] then [] else
      var n := |pending| - 1;
      assert forall i :: i in pending <==> i in pending[..n] || i == pending[n];
      var r := Retained(pending[..n], answers);
      if answers[pending[n]].Some? then r else
        assert Ascends(pending) ==> forall k :: 0 <= k < |r| ==> r[k] < pending[n] by {
          if Ascends(pending) {
            forall k | 0 <= k < |r| ensures r[k] < pending[n] {
              assert r[k] in r && r[k] in pending[..n];
            }
          }
        }
        r + [pending[n]]
  }

  type Answers = seq<Option<Result<Reading, Error>>>

  /** Answers after a call: its settled places filled, all others as they were. */
  ghost predicate Filled(before: Answers, after: Answers, asked: seq<nat>,
                         settled: seq<Option<Result<Reading, Error>>>) {
    && |after| == |before| && |settled| == |asked| && InRange(asked, |before|)
    && (forall p :: 0 <= p < |asked| ==> after[asked[p]] == if settled[p].Some? then settled[p] else before[asked[p]])
    && forall i :: 0 <= i < |before| && i !in asked ==> after[i] == before[i]
  }

  method FillAll(before: Answers, asked: seq<nat>, e: Error) returns (answers: Answers)
    requires InRange(asked, |before|) && Ascends(asked)
    ensures Filled(before, answers, asked, seq(|asked|, p => Some(Err(e))))
  {
    answers := before;
    for p := 0 to |asked|
      invariant |answers| == |before|
      invariant forall q :: 0 <= q < p ==> answers[asked[q]] == Some(Err(e))
      invariant forall i :: 0 <= i < |before| && i !in asked ==> answers[i] == before[i]
    {
      answers := answers[asked[p] := Some(Err(e))];
    }
  }

  function Afterwards(before: Answers, sources: seq<SourceRef>, i: nat, entry: Entry): Option<Result<Reading, Error>>
    requires i < |before| && |before| == |sources|
  {
    if Deferred(sources[i], entry) then before[i] else Some(BatchEntry(sources[i], entry))
  }

  method FillEntries(before: Answers, sources: seq<SourceRef>, asked: seq<nat>, entries: seq<Entry>)
    returns (answers: Answers, progressed: bool)
    requires InRange(asked, |before|) && Ascends(asked) && |before| == |sources| && |entries| == |asked|
    ensures progressed <==> !AllDefer(Refs(sources, asked), entries)
    ensures |answers| == |before|
    ensures forall p :: 0 <= p < |asked| ==> answers[asked[p]] == Afterwards(before, sources, asked[p], entries[p])
    ensures forall i :: 0 <= i < |before| && i !in asked ==> answers[i] == before[i]
  {
    answers := before;
    progressed := false;
    for p := 0 to |asked|
      invariant |answers| == |before|
      invariant progressed <==> exists q :: 0 <= q < p && !Deferred(sources[asked[q]], entries[q])
      invariant forall q :: 0 <= q < p ==> answers[asked[q]] == Afterwards(before, sources, asked[q], entries[q])
      invariant forall q :: p <= q < |asked| ==> answers[asked[q]] == before[asked[q]]
      invariant forall i :: 0 <= i < |before| && i !in asked ==> answers[i] == before[i]
    {
      var index := asked[p];
      if Deferred(sources[index], entries[p]) {
        continue;
      }
      answers := answers[index := Some(BatchEntry(sources[index], entries[p]))];
      progressed := true;
    }
    var refs := Refs(sources, asked);
    assert forall q :: 0 <= q < |asked| ==> refs[q] == sources[asked[q]];
  }

  function Settlement(sources: seq<SourceRef>, asked: seq<nat>, reply: Reply): seq<Option<Result<Reading, Error>>>
    requires InRange(asked, |sources|)
  {
    seq(|asked|, p requires 0 <= p < |asked| => Settled(Refs(sources, asked), reply, p))
  }

  /** Every call settles at least one of the places it asks. */
  lemma CallSettlesSomething(sources: seq<SourceRef>, call: Call) returns (p: nat)
    requires InRange(call.asked, |sources|) && call.asked != []
    ensures p < |call.asked| && Settlement(sources, call.asked, call.reply)[p].Some?
  {
    var refs := Refs(sources, call.asked);
    match Checked(call.reply, |refs|)
    case Err(_) => p := 0;
    case Ok(entries) =>
      if AllDefer(refs, entries) {
        p := 0;
      } else {
        p :| 0 <= p < |refs| && !Deferred(refs[p], entries[p]);
      }
  }

  ghost predicate Explained(sources: seq<SourceRef>, log: seq<Call>, answers: Answers) {
    forall i :: 0 <= i < |answers| && answers[i].Some? ==> Justified(sources, log, i, answers[i].value)
  }

  lemma AnswersGrow(sources: seq<SourceRef>, earlier: seq<Call>, call: Call, before: Answers, after: Answers)
    requires |before| == |sources| && InRange(call.asked, |sources|)
    requires Explained(sources, earlier, before)
    requires Filled(before, after, call.asked, Settlement(sources, call.asked, call.reply))
    ensures Explained(sources, earlier + [call], after)
  {
    var settled := Settlement(sources, call.asked, call.reply);
    var log := earlier + [call];
    forall i | 0 <= i < |after| && after[i].Some? ensures Justified(sources, log, i, after[i].value) {
      if p :| 0 <= p < |call.asked| && call.asked[p] == i && settled[p].Some? {
        assert log[|earlier|] == call;
        assert SettledBy(sources, log, |earlier|, p, i, after[i].value);
      } else {
        if i in call.asked {
          var q :| 0 <= q < |call.asked| && call.asked[q] == i;
          assert after[i] == before[i];
        }
        JustifiedStays(sources, earlier, call, i, before[i].value);
      }
    }
  }

  function Somes(readings: seq<Result<Reading, Error>>): Answers {
    seq(|readings|, i requires 0 <= i < |readings| => Some(readings[i]))
  }

  /** Every place the call settled still holds what it was settled to. */
  ghost predicate Final(sources: seq<SourceRef>, call: Call, answers: Answers) {
    && |answers| == |sources| && InRange(call.asked, |sources|)
    && forall p :: 0 <= p < |call.asked| ==>
         var settled := Settlement(sources, call.asked, call.reply)[p];
         settled.Some? ==> answers[call.asked[p]] == settled
  }

  ghost predicate AllFinal(sources: seq<SourceRef>, log: seq<Call>, answers: Answers) {
    forall k :: 0 <= k < |log| ==> Final(sources, log[k], answers)
  }

  predicate DefersOwn(source: SourceRef, entry: Entry) {
    entry.source == Some(source) && entry.deferred
  }

  predicate AllDefersOwn(sources: seq<SourceRef>, asked: seq<nat>, entries: seq<Entry>)
    requires InRange(asked, |sources|) && |entries| == |asked|
  {
    forall q :: 0 <= q < |entries| ==> DefersOwn(sources[asked[q]], entries[q])
  }

  /** What a call settles for the place it asks p-th, in the terms of its reply: a failure, a wrong count
      or a chunk deferred as a whole answers it; otherwise its entry does with what that means, unless it
      defers its own source. */
  predicate PlaceMeans(sources: seq<SourceRef>, call: Call, p: nat, a: Result<Reading, Error>)
    requires InRange(call.asked, |sources|) && p < |call.asked|
  {
    match call.reply
    case Failed(error) => a == Err(error)
    case Readings(entries) =>
      var source := sources[call.asked[p]];
      if |entries| != |call.asked| then a == Err(WrongCount)
      else if AllDefersOwn(sources, call.asked, entries) then a == Err(AllDeferred)
      else !DefersOwn(source, entries[p]) ==> EntryMeans(source, entries[p], a)
  }

  predicate CallMeans(sources: seq<SourceRef>, call: Call, values: seq<Result<Reading, Error>>)
    requires |values| == |sources| && InRange(call.asked, |sources|)
  {
    forall p :: 0 <= p < |call.asked| ==> PlaceMeans(sources, call, p, values[call.asked[p]])
  }

  predicate AllMean(sources: seq<SourceRef>, log: seq<Call>, values: seq<Result<Reading, Error>>)
    requires |values| == |sources|
  {
    forall k :: 0 <= k < |log| ==> InRange(log[k].asked, |sources|) && CallMeans(sources, log[k], values)
  }

  lemma {:induction false} SettledMeans(sources: seq<SourceRef>, call: Call, p: nat, a: Result<Reading, Error>)
    requires InRange(call.asked, |sources|) && p < |call.asked|
    requires Settled(Refs(sources, call.asked), call.reply, p).Some? ==>
               a == Settled(Refs(sources, call.asked), call.reply, p).value
    ensures PlaceMeans(sources, call, p, a)
  {
    var refs := Refs(sources, call.asked);
    assert forall q :: 0 <= q < |refs| ==> refs[q] == sources[call.asked[q]];
  }

  lemma {:induction false} FinalMeans(sources: seq<SourceRef>, call: Call, values: seq<Result<Reading, Error>>)
    requires |values| == |sources| && Final(sources, call, Somes(values))
    ensures CallMeans(sources, call, values)
  {
    forall p | 0 <= p < |call.asked| ensures PlaceMeans(sources, call, p, values[call.asked[p]]) {
      assert Somes(values)[call.asked[p]] == Some(values[call.asked[p]]);
      assert Settlement(sources, call.asked, call.reply)[p] == Settled(Refs(sources, call.asked), call.reply, p);
      SettledMeans(sources, call, p, values[call.asked[p]]);
    }
  }

  lemma {:induction false} AllFinalMean(sources: seq<SourceRef>, log: seq<Call>, values: seq<Result<Reading, Error>>)
    requires |values| == |sources| && AllFinal(sources, log, Somes(values))
    ensures AllMean(sources, log, values)
  {
    forall k | 0 <= k < |log| ensures InRange(log[k].asked, |sources|) && CallMeans(sources, log[k], values) {
      assert Final(sources, log[k], Somes(values));
      FinalMeans(sources, log[k], values);
    }
  }

  /** Only places without an answer are asked again, so no answer is ever overwritten. */
  lemma AnswersStay(sources: seq<SourceRef>, earlier: seq<Call>, call: Call, before: Answers, after: Answers)
    requires |before| == |sources| && InRange(call.asked, |sources|) && AllFinal(sources, earlier, before)
    requires forall p :: 0 <= p < |call.asked| ==> before[call.asked[p]].None?
    requires Filled(before, after, call.asked, Settlement(sources, call.asked, call.reply))
    ensures AllFinal(sources, earlier + [call], after)
  {
    var log := earlier + [call];
    forall k | 0 <= k < |log| ensures Final(sources, log[k], after) {
      if k < |earlier| {
        assert log[k] == earlier[k] && Final(sources, earlier[k], before);
        var c := earlier[k];
        forall p | 0 <= p < |c.asked| && Settlement(sources, c.asked, c.reply)[p].Some?
          ensures after[c.asked[p]] == Settlement(sources, c.asked, c.reply)[p]
        {
          assert before[c.asked[p]].Some?;
          assert c.asked[p] !in call.asked;
        }
      } else {
        assert log[k] == call;
      }
    }
  }

  lemma {:induction false} RetainedDrops(pending: seq<nat>, answers: Answers, i: nat)
    requires InRange(pending, |answers|) && i in pending && answers[i].Some?
    ensures |Retained(pending, answers)| < |pending|
  {
    var n := |pending| - 1;
    if pending[n] != i {
      assert i in pending[..n];
      RetainedDrops(pending[..n], answers, i);
    }
  }

  lemma {:induction false} RetainedIsTheRest(pending: seq<nat>, answers: Answers, m: nat)
    requires InRange(pending, |answers|) && m <= |pending|
    requires forall k :: 0 <= k < m ==> answers[pending[k]].Some?
    requires forall k :: m <= k < |pending| ==> answers[pending[k]].None?
    ensures Retained(pending, answers) == pending[m..]
  {
    if pending != [] {
      var n := |pending| - 1;
      var front, last := pending[..n], pending[n];
      if m == |pending| {
        RetainedIsTheRest(front, answers, n);
        assert answers[last].Some?;
      } else {
        RetainedIsTheRest(front, answers, m);
        assert answers[last].None?;
        DropThenPush(pending, m);
      }
    }
  }

  lemma DropThenPush(s: seq<nat>, m: nat)
    requires m < |s|
    ensures s[m..] == s[..|s| - 1][m..] + [s[|s| - 1]]
  {
  }

  predicate Tracks(pending: seq<nat>, answers: Answers) {
    InRange(pending, |answers|) && Ascends(pending)
    && forall i :: 0 <= i < |answers| ==> (answers[i].None? <==> i in pending)
  }

  lemma PendingShrinks(sources: seq<SourceRef>, call: Call, pending: seq<nat>, before: Answers, after: Answers)
    requires |before| == |sources| && Tracks(pending, before)
    requires call.asked != [] && call.asked <= pending && InRange(call.asked, |sources|)
    requires Filled(before, after, call.asked, Settlement(sources, call.asked, call.reply))
    ensures Tracks(Retained(pending, after), after)
    ensures |Retained(pending, after)| < |pending|
    ensures Clean(sources, call) ==> Retained(pending, after) == pending[|call.asked|..]
  {
    var p := CallSettlesSomething(sources, call);
    assert call.asked[p] == pending[p] && pending[p] in pending;
    RetainedDrops(pending, after, call.asked[p]);
    forall i | 0 <= i < |after| ensures after[i].None? <==> i in Retained(pending, after) {
      if i !in pending { assert i !in call.asked; }
    }
    if Clean(sources, call) {
      CleanCallTakesItsChunk(sources, call, pending, before, after);
    }
  }

  lemma CleanCallTakesItsChunk(sources: seq<SourceRef>, call: Call, pending: seq<nat>, before: Answers, after: Answers)
    requires |before| == |sources| && Tracks(pending, before)
    requires call.asked <= pending && Clean(sources, call)
    requires Filled(before, after, call.asked, Settlement(sources, call.asked, call.reply))
    ensures Retained(pending, after) == pending[|call.asked|..]
  {
    var m := |call.asked|;
    forall k | m <= k < |pending| ensures after[pending[k]].None? {
      assert pending[k] in pending;
      assert pending[k] !in call.asked;
    }
    forall k | 0 <= k < m ensures after[pending[k]].Some? {
      assert pending[k] == call.asked[k];
      assert Settlement(sources, call.asked, call.reply)[k].Some?;
    }
    RetainedIsTheRest(pending, after, m);
  }

  /** After so many clean calls, so many sources of n are left. */
  predicate Remaining(n: nat, calls: nat, left: nat) {
    left == (if n <= RESOLVE_BATCH_SOURCES * calls then 0 else n - RESOLVE_BATCH_SOURCES * calls)
    && (0 < calls ==> RESOLVE_BATCH_SOURCES * (calls - 1) < n)
  }

  /** What one turn of the loop does to the answers, given the reply to what it asked. */
  method Absorb(before: Answers, sources: seq<SourceRef>, asked: seq<nat>, reply: Reply) returns (answers: Answers)
    requires InRange(asked, |before|) && Ascends(asked) && |before| == |sources|
    requires forall p :: 0 <= p < |asked| ==> before[asked[p]].None?
    ensures Filled(before, answers, asked, Settlement(sources, asked, reply))
  {
    match Checked(reply, |asked|)
    case Err(e) =>
      answers := FillAll(before, asked, e);
    case Ok(entries) =>
      var progressed;
      answers, progressed := FillEntries(before, sources, asked, entries);
      if !progressed {
        answers := FillAll(answers, asked, AllDeferred);
      }
  }

  function Chunk(pending: seq<nat>): (chunk: seq<nat>)
    ensures chunk <= pending && |chunk| <= RESOLVE_BATCH_SOURCES
    ensures pending != [] ==> chunk != []
    ensures forall n :: InRange(pending, n) ==> InRange(chunk, n)
    ensures Ascends(pending) ==> Ascends(chunk)
    ensures |chunk| == if |pending| <= RESOLVE_BATCH_SOURCES then |pending| else RESOLVE_BATCH_SOURCES
  {
    if |pending| <= RESOLVE_BATCH_SOURCES then pending else pending[..RESOLVE_BATCH_SOURCES]
  }

  predicate SomeSucceeded(log: seq<Call>) {
    exists k :: 0 <= k < |log| && Succeeded(log[k])
  }

  lemma CallAdded(owner: Owner, sources: seq<SourceRef>, log: seq<Call>, call: Call)
    requires Made(owner, sources, log)
    requires InRange(call.asked, |sources|) && 0 < |call.asked| <= RESOLVE_BATCH_SOURCES
    requires call.reply == owner.batch(|log|, Refs(sources, call.asked))
    ensures Made(owner, sources, log + [call])
    ensures SomeSucceeded(log + [call]) <==> SomeSucceeded(log) || Succeeded(call)
    ensures AllClean(sources, log + [call]) <==> AllClean(sources, log) && Clean(sources, call)
  {
    var after := log + [call];
    assert forall k :: 0 <= k < |log| ==> after[k] == log[k];
    assert after[|log|] == call;
    if SomeSucceeded(log) {
      var k :| 0 <= k < |log| && Succeeded(log[k]);
      assert Succeeded(after[k]);
    }
    if Succeeded(call) { assert Succeeded(after[|log|]); }
    if AllClean(sources, after) {
      forall k | 0 <= k < |log| ensures Clean(sources, log[k]) { assert Clean(sources, after[k]); }
      assert Clean(sources, after[|log|]);
    }
  }

  /** What holds between two turns of the loop. */
  ghost predicate Underway(owner: Owner, sources: seq<SourceRef>, log: seq<Call>, answers: Answers, pending: seq<nat>) {
    && |answers| == |sources| && Tracks(pending, answers)
    && Explained(sources, log, answers) && AllFinal(sources, log, answers)
    && Made(owner, sources, log) && |log| + |pending| <= |sources|
    && (AllClean(sources, log) ==> Remaining(|sources|, |log|, |pending|))
  }

  lemma TurnKeeps(owner: Owner, sources: seq<SourceRef>, log: seq<Call>, answers: Answers, pending: seq<nat>,
                  call: Call, after: Answers)
    requires Underway(owner, sources, log, answers, pending) && pending != []
    requires call == Call(Chunk(pending), owner.batch(|log|, Refs(sources, Chunk(pending))))
    requires Filled(answers, after, call.asked, Settlement(sources, call.asked, call.reply))
    ensures Underway(owner, sources, log + [call], after, Retained(pending, after))
    ensures |Retained(pending, after)| < |pending|
  {
    CallAdded(owner, sources, log, call);
    NothingAnsweredYet(pending, answers, call.asked);
    AnswersGrow(sources, log, call, answers, after);
    AnswersStay(sources, log, call, answers, after);
    PendingShrinks(sources, call, pending, answers, after);
  }

  lemma AllSettled(owner: Owner, sources: seq<SourceRef>, log: seq<Call>, answers: Answers, pending: seq<nat>)
    requires Underway(owner, sources, log, answers, pending) && pending == []
    ensures forall i :: 0 <= i < |answers| ==> answers[i].Some? && Justified(sources, log, i, answers[i].value)
    ensures AllClean(sources, log)
            ==> |log| == (|sources| + RESOLVE_BATCH_SOURCES - 1) / RESOLVE_BATCH_SOURCES
  {
    forall i | 0 <= i < |answers| ensures answers[i].Some? { assert i !in pending; }
  }

  /**
   * resolve_batch. Every source is answered by a call that asked for it, and what a call settles
   * stays; the owner is called at most once per source; None comes back only while no call has
   * succeeded.
   */
  method ResolveBatch(owner: Owner, sources: seq<SourceRef>)
    returns (r: Option<seq<Result<Reading, Error>>>, ghost log: seq<Call>)
    ensures Made(owner, sources, log) && |log| <= |sources|
    ensures r.None? <==> log != [] && Unknown(log[|log| - 1]) && !SomeSucceeded(log)
    ensures r.Some? ==> |r.value| == |sources|
    ensures r.Some? ==> forall i :: 0 <= i < |sources| ==> Justified(sources, log, i, r.value[i])
    ensures r.Some? ==> AllFinal(sources, log, Somes(r.value)) && AllMean(sources, log, r.value)
    ensures r.Some? && AllClean(sources, log)
            ==> |log| == (|sources| + RESOLVE_BATCH_SOURCES - 1) / RESOLVE_BATCH_SOURCES
  {
    var answers: Answers := seq(|sources|, _ => None);
    var pending: seq<nat> := seq(|sources|, i => i);
    forall i | 0 <= i < |sources| ensures i in pending { assert pending[i] == i; }
    var answeredAny, calls := false, 0;
    log := [];
    while pending != []
      invariant Underway(owner, sources, log, answers, pending) && calls == |log|
      invariant answeredAny <==> SomeSucceeded(log)
      invariant log == [] || !Unknown(log[|log| - 1]) || answeredAny
      decreases |pending|
    {
      var chunk := Chunk(pending);
      var reply := owner.batch(calls, Refs(sources, chunk));
      ghost var call, earlier := Call(chunk, reply), log;
      log := log + [call];
      CallAdded(owner, sources, earlier, call);
      var readings := Checked(reply, |chunk|);
      if readings.Err? && !answeredAny && BatchUnknown(readings.error) {
        return None, log;
      }
      ghost var before := answers;
      NothingAnsweredYet(pending, answers, chunk);
      answers := Absorb(answers, sources, chunk, reply);
      TurnKeeps(owner, sources, earlier, before, pending, call, answers);
      answeredAny := answeredAny || readings.Ok?;
      calls := calls + 1;
      pending := Retained(pending, answers);
    }
    AllSettled(owner, sources, log, answers, pending);
    r := Some(seq(|answers|, i requires 0 <= i < |answers| => answers[i].value));
    assert answers == Somes(r.value);
    AllFinalMean(sources, log, r.value);
  }

  lemma NothingAnsweredYet(pending: seq<nat>, answers: Answers, chunk: seq<nat>)
    requires Tracks(pending, answers) && chunk <= pending
    ensures forall p :: 0 <= p < |chunk| ==> answers[chunk[p]].None?
  {
    forall p | 0 <= p < |chunk| ensures answers[chunk[p]].None? {
      assert chunk[p] == pending[p] && pending[p] in pending;
    }
  }

  // ------------------------------------------------------------------ batch equals pointwise

  /** The owner answers each entry as its single read would, or defers it. */
  predicate MatchesOrDefers(owner: Owner, sources: seq<SourceRef>, call: Call) {
    && InRange(call.asked, |sources|) && Succeeded(call)
    && forall p :: 0 <= p < |call.asked| ==>
         Deferred(sources[call.asked[p]], call.reply.entries[p])
         || EntryMeans(sources[call.asked[p]], call.reply.entries[p], owner.single(sources[call.asked[p]]))
  }

  /** It defers the whole chunk. */
  predicate DefersAll(sources: seq<SourceRef>, call: Call) {
    && InRange(call.asked, |sources|) && Succeeded(call)
    && AllDefer(Refs(sources, call.asked), call.reply.entries)
  }

  predicate FaithfulCall(owner: Owner, sources: seq<SourceRef>, call: Call) {
    MatchesOrDefers(owner, sources, call) && !DefersAll(sources, call)
  }

  predicate Matching(owner: Owner, sources: seq<SourceRef>, log: seq<Call>) {
    forall k :: 0 <= k < |log| ==> MatchesOrDefers(owner, sources, log[k])
  }

  predicate NoneDefersAll(sources: seq<SourceRef>, log: seq<Call>) {
    forall k :: 0 <= k < |log| ==> !DefersAll(sources, log[k])
  }

  predicate Faithful(owner: Owner, sources: seq<SourceRef>, log: seq<Call>) {
    forall k :: 0 <= k < |log| ==> FaithfulCall(owner, sources, log[k])
  }

  lemma FaithfulAnswersMatch(owner: Owner, sources: seq<SourceRef>, log: seq<Call>, i: nat, a: Result<Reading, Error>)
    requires Faithful(owner, sources, log) && i < |sources|
    requires Justified(sources, log, i, a)
    ensures a == owner.single(sources[i])
  {
    var k: nat, p: nat :| k < |log| && InRange(log[k].asked, |sources|) && SettledBy(sources, log, k, p, i, a);
    var call := log[k];
    assert FaithfulCall(owner, sources, call);
    assert Refs(sources, call.asked)[p] == sources[i];
  }

  predicate Asks(source: SourceRef, allowed: bool) {
    CENTRAL <= source && allowed
  }

  /** The sources that need the owner, in order. */
  function AskedOf(sources: seq<SourceRef>, allowed: bool): (asked: seq<SourceRef>)
    ensures |asked| <= |sources|
  {
    if sources == [] then [] else
      var n := |sources| - 1;
      AskedOf(sources[..n], allowed) + if Asks(sources[n], allowed) then [sources[n]] else []
  }

  /** The reply the owner's answer for an asked source amounts to. */
  function Decoded(source: SourceRef, a: Result<Reading, Error>): Result<Option<nat>, Error> {
    match a
    case Err(e) => Err(e)
    case Ok(reading) => DecodeReading(source, reading)
  }

  /** Place i of the batch: a local answer, or the owner's answer for the next source asked. */
  function Placed(sources: seq<SourceRef>, allowed: bool, readings: seq<Result<Reading, Error>>,
                  i: nat): Result<Option<nat>, Error>
    requires i < |sources| && |readings| == |AskedOf(sources, allowed)|
  {
    if !(CENTRAL <= sources[i]) then Ok(None)
    else if !allowed then Err(TargetDenied)
    else
      AskedPlace(sources, allowed, i);
      Decoded(sources[i], readings[|AskedOf(sources[..i], allowed)|])
  }

  lemma AskedPush(sources: seq<SourceRef>, allowed: bool, i: nat)
    requires i < |sources|
    ensures AskedOf(sources[..i + 1], allowed)
            == AskedOf(sources[..i], allowed) + if Asks(sources[i], allowed) then [sources[i]] else []
  {
    assert sources[..i + 1][..i] == sources[..i];
  }

  lemma {:induction false} AskedIsPrefix(sources: seq<SourceRef>, allowed: bool, i: nat)
    requires i <= |sources|
    ensures AskedOf(sources[..i], allowed) <= AskedOf(sources, allowed)
  {
    if i == |sources| {
      assert sources[..i] == sources;
    } else {
      var n := |sources| - 1;
      assert sources[..n][..i] == sources[..i];
      AskedIsPrefix(sources[..n], allowed, i);
    }
  }

  lemma AskedPlace(sources: seq<SourceRef>, allowed: bool, i: nat)
    requires i < |sources| && Asks(sources[i], allowed)
    ensures |AskedOf(sources[..i], allowed)| < |AskedOf(sources, allowed)|
    ensures AskedOf(sources, allowed)[|AskedOf(sources[..i], allowed)|] == sources[i]
  {
    AskedPush(sources, allowed, i);
    AskedIsPrefix(sources, allowed, i + 1);
  }

  /** Every source asked is some place's. */
  lemma {:induction false} AskedFrom(sources: seq<SourceRef>, allowed: bool, j: nat) returns (i: nat)
    requires j < |AskedOf(sources, allowed)|
    ensures i < |sources| && Asks(sources[i], allowed) && |AskedOf(sources[..i], allowed)| == j
  {
    var n := |sources| - 1;
    if j < |AskedOf(sources[..n], allowed)| {
      i := AskedFrom(sources[..n], allowed, j);
      assert sources[..n][..i] == sources[..i];
    } else {
      i := n;
    }
  }

  /** What a place is answered before the owner is asked, if it is. */
  function LocalAnswer(source: SourceRef, allowed: bool): Option<Result<Option<nat>, Error>> {
    if !(CENTRAL <= source) then Some(Ok(None))
    else if !allowed then Some(Err(TargetDenied))
    else None
  }

  /** The first loop: local answers, and the sources left for the owner. */
  method Sift(sources: seq<SourceRef>, allowed: bool)
    returns (answers: seq<Option<Result<Option<nat>, Error>>>, asked: seq<SourceRef>)
    ensures asked == AskedOf(sources, allowed) && |answers| == |sources|
    ensures forall j :: 0 <= j < |sources| ==> answers[j] == LocalAnswer(sources[j], allowed)
  {
    answers, asked := [], [];
    var i := 0;
    while i < |sources|
      invariant 0 <= i <= |sources| && |answers| == i
      invariant asked == AskedOf(sources[..i], allowed)
      invariant forall j :: 0 <= j < i ==> answers[j] == LocalAnswer(sources[j], allowed)
    {
      AskedPush(sources, allowed, i);
      if !(CENTRAL <= sources[i]) {
        answers := answers + [Some(Ok(None))];
      } else if !allowed {
        answers := answers + [Some(Err(TargetDenied))];
      } else {
        answers := answers + [None];
        asked := asked + [sources[i]];
      }
      i := i + 1;
    }
    assert sources[..i] == sources;
  }

  /** The last step: local answers where there are any, the owner's readings in order elsewhere. */
  method Weave(sources: seq<SourceRef>, allowed: bool, answers: seq<Option<Result<Option<nat>, Error>>>,
               readings: seq<Result<Reading, Error>>)
    returns (out: seq<Result<Option<nat>, Error>>)
    requires |answers| == |sources| && |readings| == |AskedOf(sources, allowed)|
    requires forall j :: 0 <= j < |sources| ==> answers[j] == LocalAnswer(sources[j], allowed)
    ensures |out| == |sources| && forall j :: 0 <= j < |sources| ==> out[j] == Placed(sources, allowed, readings, j)
  {
    out := [];
    var i, next := 0, 0;
    while i < |sources|
      invariant 0 <= i <= |sources| && |out| == i && next == |AskedOf(sources[..i], allowed)|
      invariant forall j :: 0 <= j < i ==> out[j] == Placed(sources, allowed, readings, j)
    {
      AskedPush(sources, allowed, i);
      if answers[i].Some? {
        out := out + [answers[i].value];
      } else {
        AskedPlace(sources, allowed, i);
        out := out + [Decoded(sources[i], readings[next])];
        next := next + 1;
      }
      i := i + 1;
    }
  }

  /** What a place that asks the owner holds comes from a call that asked for that very place. */
  ghost predicate FromItsCall(sources: seq<SourceRef>, allowed: bool, log: seq<Call>, i: nat,
                              v: Result<Option<nat>, Error>)
    requires i < |sources|
  {
    exists a :: v == Decoded(sources[i], a)
                && Justified(AskedOf(sources, allowed), log, |AskedOf(sources[..i], allowed)|, a)
  }

  lemma {:induction false} PlaceIsJustified(
      owner: Owner, sources: seq<SourceRef>, allowed: bool, log: seq<Call>, readings: seq<Result<Reading, Error>>,
      i: nat)
    requires i < |sources| && |readings| == |AskedOf(sources, allowed)|
    requires forall k :: 0 <= k < |readings| ==> Justified(AskedOf(sources, allowed), log, k, readings[k])
    ensures var v := Placed(sources, allowed, readings, i);
            && (Asks(sources[i], allowed) ==> FromItsCall(sources, allowed, log, i, v))
            && (!Asks(sources[i], allowed) || Faithful(owner, AskedOf(sources, allowed), log)
                ==> v == ReadSingle(owner, sources[i], allowed))
  {
    if Asks(sources[i], allowed) {
      AskedPlace(sources, allowed, i);
      var asked, at := AskedOf(sources, allowed), |AskedOf(sources[..i], allowed)|;
      assert Justified(asked, log, at, readings[at]);
      if Faithful(owner, asked, log) {
        FaithfulAnswersMatch(owner, asked, log, at, readings[at]);
      }
    }
  }

  /** A call that defers its whole chunk shows: some place is answered with that. */
  lemma {:induction false} DeferralShows(
      owner: Owner, sources: seq<SourceRef>, allowed: bool, log: seq<Call>, readings: seq<Result<Reading, Error>>,
      k: nat) returns (i: nat)
    requires |readings| == |AskedOf(sources, allowed)| && Made(owner, AskedOf(sources, allowed), log)
    requires AllFinal(AskedOf(sources, allowed), log, Somes(readings))
    requires k < |log| && DefersAll(AskedOf(sources, allowed), log[k])
    ensures i < |sources| && Placed(sources, allowed, readings, i) == Err(AllDeferred)
  {
    var asked, call := AskedOf(sources, allowed), log[k];
    assert Final(asked, call, Somes(readings));
    var j := call.asked[0];
    assert Settlement(asked, call.asked, call.reply)[0] == Some(Err(AllDeferred));
    assert Somes(readings)[j] == Some(Err(AllDeferred));
    i := AskedFrom(sources, allowed, j);
  }

  /** What the owner's answer for an asked source makes its place. */
  predicate DecodedMeans(source: SourceRef, a: Result<Reading, Error>, v: Result<Option<nat>, Error>) {
    match a
    case Err(e) => v == Err(e)
    case Ok(reading) => ReadingMeans(source, reading, v)
  }

  /** What place i holds: nothing for another owner's source, a denial without leave, and else what the
      owner answered for the source asked at that place. */
  predicate ReadMeans(sources: seq<SourceRef>, allowed: bool, readings: seq<Result<Reading, Error>>, i: nat,
                      v: Result<Option<nat>, Error>)
    requires i < |sources|
  {
    var at := |AskedOf(sources[..i], allowed)|;
    && (!(CENTRAL <= sources[i]) ==> v == Ok(None))
    && (CENTRAL <= sources[i] && !allowed ==> v == Err(TargetDenied))
    && (Asks(sources[i], allowed) ==> at < |readings| && DecodedMeans(sources[i], readings[at], v))
  }

  /** Every place holds what the run of calls amounts to. */
  ghost predicate BatchMeans(sources: seq<SourceRef>, allowed: bool, log: seq<Call>,
                             out: seq<Result<Option<nat>, Error>>) {
    exists readings: seq<Result<Reading, Error>> ::
      && |readings| == |AskedOf(sources, allowed)| && AllMean(AskedOf(sources, allowed), log, readings)
      && |out| == |sources| && forall i :: 0 <= i < |sources| ==> ReadMeans(sources, allowed, readings, i, out[i])
  }

  lemma PlacedMeans(sources: seq<SourceRef>, allowed: bool, readings: seq<Result<Reading, Error>>, i: nat)
    requires i < |sources| && |readings| == |AskedOf(sources, allowed)|
    ensures ReadMeans(sources, allowed, readings, i, Placed(sources, allowed, readings, i))
  {
    if Asks(sources[i], allowed) {
      AskedPlace(sources, allowed, i);
    }
  }

  predicate NoSingleDefers(owner: Owner, sources: seq<SourceRef>, allowed: bool) {
    forall i :: 0 <= i < |sources| ==> ReadSingle(owner, sources[i], allowed) != Err(AllDeferred)
  }

  /**
   * read_current_batch_for. When every call of the run is faithful to the owner's single reads, the
   * batch is those single reads, place by place; otherwise each place still holds what a call that
   * asked for its own source was answered. With an owner that answers entries as its single reads
   * would or defers them, the batch is the single reads exactly when no call defers its whole chunk.
   */
  method ReadCurrentBatch(owner: Owner, sources: seq<SourceRef>, allowed: bool)
    returns (r: Option<seq<Result<Option<nat>, Error>>>, ghost log: seq<Call>)
    ensures Made(owner, AskedOf(sources, allowed), log) && |log| <= |AskedOf(sources, allowed)|
    ensures r.None? <==> log != [] && Unknown(log[|log| - 1]) && !SomeSucceeded(log)
    ensures r.Some? ==> |r.value| == |sources|
    ensures r.Some? ==> forall i :: 0 <= i < |sources| && Asks(sources[i], allowed)
                          ==> FromItsCall(sources, allowed, log, i, r.value[i])
    ensures r.Some? ==> BatchMeans(sources, allowed, log, r.value)
    ensures r.Some? ==> forall i :: 0 <= i < |sources| && !Asks(sources[i], allowed)
                          ==> r.value[i] == ReadSingle(owner, sources[i], allowed)
    ensures Faithful(owner, AskedOf(sources, allowed), log)
            ==> r.Some? && forall i :: 0 <= i < |sources| ==> r.value[i] == ReadSingle(owner, sources[i], allowed)
    ensures Matching(owner, AskedOf(sources, allowed), log) && NoSingleDefers(owner, sources, allowed)
            ==> r.Some? && ((forall i :: 0 <= i < |sources| ==> r.value[i] == ReadSingle(owner, sources[i], allowed))
                            <==> NoneDefersAll(AskedOf(sources, allowed), log))
  {
    var answers, asked := Sift(sources, allowed);
    var resolved;
    resolved, log := ResolveBatch(owner, asked);
    if resolved.None? {
      assert !Succeeded(log[|log| - 1]);
      return None, log;
    }
    var out := Weave(sources, allowed, answers, resolved.value);
    forall i | 0 <= i < |sources|
      ensures Asks(sources[i], allowed) ==> FromItsCall(sources, allowed, log, i, out[i])
      ensures !Asks(sources[i], allowed) || Faithful(owner, asked, log)
              ==> out[i] == ReadSingle(owner, sources[i], allowed)
    {
      PlaceIsJustified(owner, sources, allowed, log, resolved.value, i);
    }
    forall i | 0 <= i < |sources| ensures ReadMeans(sources, allowed, resolved.value, i, out[i]) {
      PlacedMeans(sources, allowed, resolved.value, i);
    }
    if k :| 0 <= k < |log| && DefersAll(asked, log[k]) {
      var i := DeferralShows(owner, sources, allowed, log, resolved.value, k);
      assert out[i] == Err(AllDeferred);
    }
    r := Some(out);
  }
}
