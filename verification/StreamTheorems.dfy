/** Deprecation: it closes a stream to new entries until the stream is created again. */
module StreamTheorems {
  import opened Basics
  import opened Records
  import opened Crypto
  import opened Tables
  import opened Checkpoints
  import opened HeadFiles
  import opened Engine
  import opened Invariants
  import opened Preservation
  import opened Runs
  import opened InclusionTheorems

  predicate IsDeprecated(t: Store, name: Text) {
    StreamGet(t.streams, name).Some? && StreamGet(t.streams, name).value.deprecatedAt.Some?
  }

  lemma {:induction false} UpsertSetsOne(streams: seq<StreamRow>, row: StreamRow, name: Text)
    ensures StreamGet(UpsertStream(streams, row), name)
      == if name == row.name then Some(row) else StreamGet(streams, name)
  {
    if streams != [] && streams[0].name != row.name {
      UpsertSetsOne(streams[1..], row, name);
      assert ([streams[0]] + UpsertStream(streams[1..], row))[1..] == UpsertStream(streams[1..], row);
    } else if streams != [] {
      assert ([row] + streams[1..])[1..] == streams[1..];
    }
  }

  lemma {:induction false} DeprecationSetsOne(streams: seq<StreamRow>, target: Text, at: Text, name: Text)
    ensures StreamGet(WithDeprecation(streams, target, at), name)
      == if name == target && StreamGet(streams, name).Some? then
           Some(StreamGet(streams, name).value.(deprecatedAt := Some(at)))
         else StreamGet(streams, name)
  {
    if streams != [] && streams[0].name != target {
      DeprecationSetsOne(streams[1..], target, at, name);
      assert ([streams[0]] + WithDeprecation(streams[1..], target, at))[1..]
        == WithDeprecation(streams[1..], target, at);
    } else if streams != [] {
      assert ([streams[0].(deprecatedAt := Some(at))] + streams[1..])[1..] == streams[1..];
    }
  }

  /** One append to a deprecated stream is refused; one to another stream leaves its rows alone. */
  lemma {:induction false} AppendSparesDeprecated(s: State, p: Process, d: Draft, name: Text)
    requires StateOk(s) && IsDeprecated(s.store, name)
    ensures d.streamId == name ==> Append(s.store, p, d) == (s.store, Err(Invalid(DeprecatedStream)))
    ensures Append(s.store, p, d).0 == s.store.(entries := Append(s.store, p, d).0.entries)
    ensures StreamRows(Append(s.store, p, d).0.entries, name) == StreamRows(s.store.entries, name)
  {
    hide StateOk, AppendRow, SealRow, LinkHash, StreamGet, StreamRows;
    StateIsStoreOk(s);
    if RejectIfDeprecated(s.store, d.streamId).Ok? {
      AppendRowAdds(s.store, p, d);
      var link := LinkHash(s.store.entries, d.streamId).value;
      SealedRowHashes(p, d, |s.store.entries| + 1, link);
      StreamRowsGrow(s.store.entries, SealRow(p, d, |s.store.entries| + 1, link), name);
    }
  }

  /** An encrypted append is refused, or is an append of its sealed draft to the same stream. */
  lemma {:induction false} EncryptedIsAppend(t: Store, p: Process, d: Draft, nonce: Bytes) returns (sealed: Draft)
    ensures sealed.streamId == d.streamId
    ensures AppendEncrypted(t, p, d, nonce).0 == t || AppendEncrypted(t, p, d, nonce) == Append(t, p, sealed)
  {
    hide AppendRow, ResolveTier, Sealed, SegmentKey, StreamKey, AeadAad, MinimizedTag, OpenSegmentId, StreamGet;
    sealed := d;
    if RejectIfDeprecated(t, d.streamId).Ok? && p.masterKey.Some? && ResolveTier(t, d.streamId).Ok? {
      sealed := SealedDraft(p.masterKey.value, d, ResolveTier(t, d.streamId).value, OpenSegmentId(t, d.streamId),
                            nonce);
    }
  }

  lemma {:induction false} StepKeepsDeprecated(s: State, step: Step, name: Text)
    requires StateOk(s) && IsDeprecated(s.store, name) && (step.DoCreateStream? ==> step.name != name)
    ensures IsDeprecated(Apply(s, step).store, name)
    ensures StreamRows(Apply(s, step).store.entries, name) == StreamRows(s.store.entries, name)
  {
    hide StateOk, Append, AppendEncrypted, CloseSegment, StreamRows, StreamGet, UpsertStream, WithDeprecation,
         ComputeCheckpointHash, WithSignature, SegmentGet, HeadUpsert, Hex, LeafEntries, Closes;
    match step
    case DoAppend(p, d) => AppendSparesDeprecated(s, p, d, name);
    case DoAppendEncrypted(p, d, nonce) =>
      var sealed := EncryptedIsAppend(s.store, p, d, nonce);
      AppendSparesDeprecated(s, p, sealed, name);
    case DoClose(stream, now) =>
      StateIsStoreOk(s);
      var row, rows := CloseInserts(s.store, stream, now);
    case DoSign(p, who, id, entropy, now) =>
    case DoCreateStream(other, tier, description, now) =>
      UpsertSetsOne(s.store.streams, StreamRow(other, tier, description, now, None), name);
    case DoDeprecate(other, now) =>
      DeprecationSetsOne(s.store.streams, other, now, name);
  }

  /** After `deprecate_stream` succeeds, and as long as nobody creates the stream again, every append
      to it, plain or encrypted, is refused and its rows stay what they were. */
  lemma {:induction false} DeprecationHolds(s: State, steps: seq<Step>, name: Text, now: Text)
    requires StateOk(s) && DeprecateStream(s.store, name, now).1.Ok?
    requires forall i | 0 <= i < |steps| && steps[i].DoCreateStream? :: steps[i].name != name
    ensures IsDeprecated(Run(Apply(s, DoDeprecate(name, now)), steps).store, name)
    ensures StreamRows(Run(Apply(s, DoDeprecate(name, now)), steps).store.entries, name)
      == StreamRows(s.store.entries, name)
  {
    hide StateOk, StreamRows, StreamGet, WithDeprecation, Apply, IsDeprecated;
    ApplyKeepsStateOk(s, DoDeprecate(name, now));
    if steps == [] {
      DeprecatesNow(s, name, now);
    } else {
      assert Last(steps) == steps[|steps| - 1];
      DeprecationHolds(s, Front(steps), name, now);
      RunKeepsStateOk(Apply(s, DoDeprecate(name, now)), Front(steps));
      StepKeepsDeprecated(Run(Apply(s, DoDeprecate(name, now)), Front(steps)), Last(steps), name);
    }
  }

  lemma {:induction false} DeprecatesNow(s: State, name: Text, now: Text)
    requires DeprecateStream(s.store, name, now).1.Ok?
    ensures IsDeprecated(Apply(s, DoDeprecate(name, now)).store, name)
    ensures Apply(s, DoDeprecate(name, now)).store.entries == s.store.entries
  {
    hide StreamGet, WithDeprecation;
    DeprecationSetsOne(s.store.streams, name, now, name);
  }

  /** Creating the stream again lifts the deprecation. */
  lemma {:induction false} CreateLiftsDeprecation(s: State, p: Process, d: Draft, tier: Text,
          description: Option<Text>, now: Text)
    requires StateOk(s)
    ensures Append(CreateStream(s.store, d.streamId, tier, description, now), p, d).1.Ok?
  {
    hide StateOk, StreamGet, UpsertStream, AppendRow, LinkHash, SealRow;
    var t := CreateStream(s.store, d.streamId, tier, description, now);
    UpsertSetsOne(s.store.streams, StreamRow(d.streamId, tier, description, now, None), d.streamId);
    StreamsKeepStateOk(s, t.streams);
    StateIsStoreOk(s.(store := t));
    AppendRowAdds(t, p, d);
  }

  // ----- Exactly when a stream is deprecated -----

  predicate Creates(step: Step, name: Text) {
    step.DoCreateStream? && step.name == name
  }

  predicate Deprecates(step: Step, name: Text) {
    step.DoDeprecate? && step.name == name
  }

  ghost predicate CreatedIn(steps: seq<Step>, name: Text) {
    exists i | 0 <= i < |steps| :: Creates(steps[i], name)
  }

  /** The stream has a row, from before the steps or from one of them. */
  ghost predicate Known(t: Store, steps: seq<Step>, name: Text) {
    StreamGet(t.streams, name).Some? || CreatedIn(steps, name)
  }

  /** The last word on the stream is a deprecation: one of the steps, while the stream was known, with
      no creation after it; or one from before the steps, with no creation in them. */
  ghost predicate EndsDeprecated(t: Store, steps: seq<Step>, name: Text) {
    || (IsDeprecated(t, name) && !CreatedIn(steps, name))
    || exists i | 0 <= i < |steps| :: DeprecatedFrom(t, steps, name, i)
  }

  ghost predicate DeprecatedFrom(t: Store, steps: seq<Step>, name: Text, i: nat)
    requires i < |steps|
  {
    Deprecates(steps[i], name) && Known(t, steps[..i], name) && !CreatedIn(steps[i + 1..], name)
  }

  /** What one step does to the stream's row. */
  lemma {:induction false} StepOnStreams(s: State, step: Step, name: Text)
    ensures StreamGet(Apply(s, step).store.streams, name).Some?
      <==> StreamGet(s.store.streams, name).Some? || Creates(step, name)
    ensures IsDeprecated(Apply(s, step).store, name) <==>
      && !Creates(step, name)
      && (IsDeprecated(s.store, name) || (Deprecates(step, name) && StreamGet(s.store.streams, name).Some?))
  {
    hide StreamGet, UpsertStream, WithDeprecation, Append, AppendEncrypted, CloseSegment, SignSegment;
    match step
    case DoAppend(p, d) => AppendSparesStreams(s.store, p, d);
    case DoAppendEncrypted(p, d, nonce) =>
      var sealed := EncryptedIsAppend(s.store, p, d, nonce);
      AppendSparesStreams(s.store, p, sealed);
    case DoClose(stream, now) => CloseSparesStreams(s.store, stream, now);
    case DoSign(p, who, id, entropy, now) => SignSparesStreams(s, p, who, id, entropy, now);
    case DoCreateStream(other, tier, description, now) =>
      UpsertSetsOne(s.store.streams, StreamRow(other, tier, description, now, None), name);
    case DoDeprecate(other, now) =>
      DeprecationSetsOne(s.store.streams, other, now, name);
  }

  lemma {:induction false} AppendSparesStreams(t: Store, p: Process, d: Draft)
    ensures Append(t, p, d).0.streams == t.streams
  {
    hide SealRow, LinkHash, HasSeqno, NextSeqno, RejectIfDeprecated;
  }

  lemma {:induction false} CloseSparesStreams(t: Store, stream: Text, now: Text)
    ensures CloseSegment(t, stream, now).0.streams == t.streams
  {
    hide Head, Range, LeafHashes, TipCheckpoint, SegmentStart, NewSegment, LeafEntries;
  }

  lemma {:induction false} SignSparesStreams(s: State, p: Process, who: Text, id: nat, entropy: Bytes, now: Text)
    ensures Apply(s, DoSign(p, who, id, entropy, now)).store.streams == s.store.streams
  {
    hide SegmentGet, ComputeCheckpointHash, WithSignature, HeadUpsert, Hex;
  }

  lemma {:induction false} CreatedInOneMore(steps: seq<Step>, step: Step, name: Text)
    ensures CreatedIn(steps + [step], name) <==> CreatedIn(steps, name) || Creates(step, name)
  {
    hide Creates;
    if i :| 0 <= i < |steps| && Creates(steps[i], name) {
      assert (steps + [step])[i] == steps[i];
    }
    assert (steps + [step])[|steps|] == step;
  }

  /** The stream's last word after one more step. */
  lemma {:induction false} EndsDeprecatedOneMore(t: Store, steps: seq<Step>, step: Step, name: Text)
    ensures EndsDeprecated(t, steps + [step], name)
      <==> !Creates(step, name) && (EndsDeprecated(t, steps, name) || (Deprecates(step, name) && Known(t, steps, name)))
  {
    hide Creates, Deprecates, CreatedIn, IsDeprecated, Known;
    var all := steps + [step];
    CreatedInOneMore(steps, step, name);
    forall i | 0 <= i < |steps|
      ensures DeprecatedFrom(t, all, name, i) <==> DeprecatedFrom(t, steps, name, i) && !Creates(step, name)
    {
      assert all[..i] == steps[..i] && all[i + 1..] == steps[i + 1..] + [step];
      CreatedInOneMore(steps[i + 1..], step, name);
    }
    assert all[..|steps|] == steps && all[|steps| + 1..] == [];
    assert !CreatedIn([], name) by { NothingCreated(name); }
    assert DeprecatedFrom(t, all, name, |steps|) <==> Deprecates(step, name) && Known(t, steps, name);
    if Deprecates(step, name) {
      assert !Creates(step, name) by { NotBoth(step, name); }
    }
    if i :| 0 <= i < |steps| && DeprecatedFrom(t, steps, name, i) {
      assert !Creates(step, name) ==> DeprecatedFrom(t, all, name, i);
    }
  }

  lemma NothingCreated(name: Text)
    ensures !CreatedIn([], name)
  {
  }

  lemma NotBoth(step: Step, name: Text)
    ensures !(Deprecates(step, name) && Creates(step, name))
  {
  }

  /** After any steps from any state, the stream is deprecated exactly when its last word is a
      deprecation. */
  lemma {:induction false} DeprecatedIff(s: State, steps: seq<Step>, name: Text)
    ensures IsDeprecated(Run(s, steps).store, name) <==> EndsDeprecated(s.store, steps, name)
    ensures StreamGet(Run(s, steps).store.streams, name).Some? <==> Known(s.store, steps, name)
  {
    hide Apply, IsDeprecated, EndsDeprecated, Creates, Deprecates, StreamGet;
    if steps == [] {
      NothingYet(s.store, name);
    } else {
      var front, last := Front(steps), Last(steps);
      assert steps == front + [last];
      DeprecatedIff(s, front, name);
      StepOnStreams(Run(s, front), last, name);
      EndsDeprecatedOneMore(s.store, front, last, name);
      CreatedInOneMore(front, last, name);
    }
  }

  lemma NothingYet(t: Store, name: Text)
    ensures EndsDeprecated(t, [], name) <==> IsDeprecated(t, name)
  {
  }

  /** After any run from a reachable state an append is refused exactly when its stream's last word is a
      deprecation, and only for that reason. */
  lemma {:induction false} AppendRefusedIff(s: State, steps: seq<Step>, p: Process, d: Draft)
    requires StateOk(s)
    ensures Append(Run(s, steps).store, p, d).1.Ok? <==> !EndsDeprecated(s.store, steps, d.streamId)
    ensures Append(Run(s, steps).store, p, d).1.Err? ==>
      Append(Run(s, steps).store, p, d).1.error == Invalid(DeprecatedStream)
  {
    hide StateOk, Run, EndsDeprecated, AppendRow, LinkHash, SealRow, StreamGet;
    RunKeepsStateOk(s, steps);
    DeprecatedIff(s, steps, d.streamId);
    StateIsStoreOk(Run(s, steps));
    AppendRowAdds(Run(s, steps).store, p, d);
  }

  /** After any run from a reachable state an encrypted append is accepted exactly when its stream's last
      word is no deprecation, the process has a master key, and the stream's tier parses; each condition
      that fails first is the error. */
  lemma {:induction false} EncryptedAppendAnswers(s: State, steps: seq<Step>, p: Process, d: Draft, nonce: Bytes)
    requires StateOk(s)
    ensures var t := Run(s, steps).store;
      var outcome := AppendEncrypted(t, p, d, nonce).1;
      if EndsDeprecated(s.store, steps, d.streamId) then outcome == Err(Invalid(DeprecatedStream))
      else if p.masterKey.None? then outcome == Err(Invalid(MissingMasterKey))
      else if !KnownTier(t, d.streamId) then outcome == Err(Invalid(UnknownTier))
      else outcome.Ok? && outcome.value.seqno == |t.entries| + 1
  {
    hide StateOk, Run, EndsDeprecated, AppendRow, LinkHash, SealRow, StreamGet, ParseTier, Sealed, SegmentKey,
         StreamKey, AeadAad, MinimizedTag, OpenSegmentId;
    RunKeepsStateOk(s, steps);
    DeprecatedIff(s, steps, d.streamId);
    var t := Run(s, steps).store;
    StateIsStoreOk(Run(s, steps));
    if RejectIfDeprecated(t, d.streamId).Ok? && p.masterKey.Some? && ResolveTier(t, d.streamId).Ok? {
      var tier := ResolveTier(t, d.streamId).value;
      var sealed := SealedDraft(p.masterKey.value, d, tier, OpenSegmentId(t, d.streamId), nonce);
      AppendRowAdds(t, p, sealed);
      SealedRowHashes(p, sealed, |t.entries| + 1, LinkHash(t.entries, sealed.streamId).value);
    }
  }

  /** The stream has no row, and then counts as public, or its tier text parses. */
  predicate KnownTier(t: Store, name: Text) {
    StreamGet(t.streams, name).Some? ==> ParseTier(StreamGet(t.streams, name).value.tier).Some?
  }
}
