/** The stream ids that occur in the witness log: collected, sorted, and deduplicated. */
module StreamIds {
  import opened Basics
  import opened Records
  import opened WitnessGc

  function Collect(ws: seq<WitnessRow>): seq<Text> {
    if ws == [] then [] else Collect(Front(ws)) + [Last(ws).streamId]
  }

  function InsertText(s: seq<Text>, x: Text): seq<Text> {
    if s == [] || !Less(x, Last(s)) then s + [x] else InsertText(Front(s), x) + [Last(s)]
  }

  /** `sort`. */
  function SortTexts(s: seq<Text>): seq<Text> {
    if s == [] then [] else InsertText(SortTexts(Front(s)), Last(s))
  }

  /** `dedup`: drops an element equal to the one before it. */
  function Dedup(s: seq<Text>): seq<Text> {
    if |s| <= 1 then s
    else if s[|s| - 2] == s[|s| - 1] then Dedup(Front(s))
    else Dedup(Front(s)) + [Last(s)]
  }

  /** `witness_log_stream_ids`. */
  function DistinctStreams(ws: seq<WitnessRow>): seq<Text> {
    Dedup(SortTexts(Collect(ws)))
  }

  predicate Ascending(s: seq<Text>) {
    forall i, j | 0 <= i < j < |s| :: !Less(s[j], s[i])
  }

  predicate StrictlyAscending(s: seq<Text>) {
    forall i, j | 0 <= i < j < |s| :: Less(s[i], s[j])
  }

  lemma {:induction false} CollectMembers(ws: seq<WitnessRow>, x: Text)
    ensures x in Collect(ws) <==> exists w :: w in ws && w.streamId == x
  {
    if ws != [] {
      CollectMembers(Front(ws), x);
      assert ws == Front(ws) + [Last(ws)];
      assert forall w :: w in ws <==> w in Front(ws) || w == Last(ws);
    }
  }

  lemma {:induction false} InsertTextSorts(s: seq<Text>, x: Text)
    requires Ascending(s)
    ensures Ascending(InsertText(s, x))
    ensures forall y :: y in InsertText(s, x) <==> y in s || y == x
  {
    hide Less;
    if s != [] && Less(x, Last(s)) {
      InsertTextSorts(Front(s), x);
      assert s == Front(s) + [Last(s)];
      var r := InsertText(Front(s), x);
      forall i | 0 <= i < |r| ensures !Less(Last(s), r[i]) {
        LessIsTotal(x, Last(s));
        assert r[i] in r;
        if r[i] in Front(s) {
          var j :| 0 <= j < |Front(s)| && Front(s)[j] == r[i];
          assert !Less(s[|s| - 1], s[j]);
        }
      }
    } else if s != [] {
      forall i | 0 <= i < |s| ensures !Less(x, s[i]) {
        if Less(x, s[i]) && i < |s| - 1 {
          LessIsTotal(s[i], Last(s));
          if Less(s[i], Last(s)) {
            LessIsTransitive(x, s[i], Last(s));
          }
        }
      }
    }
  }

  lemma {:induction false} SortTextsSorts(s: seq<Text>)
    ensures Ascending(SortTexts(s))
    ensures forall y :: y in SortTexts(s) <==> y in s
  {
    if s != [] {
      SortTextsSorts(Front(s));
      InsertTextSorts(SortTexts(Front(s)), Last(s));
      assert s == Front(s) + [Last(s)];
    }
  }

  lemma {:induction false} DedupOfAscending(s: seq<Text>)
    requires Ascending(s)
    ensures StrictlyAscending(Dedup(s))
    ensures forall y :: y in Dedup(s) <==> y in s
    ensures s != [] ==> Dedup(s) != [] && Last(Dedup(s)) == Last(s)
  {
    hide Less;
    if |s| > 1 {
      var front := Front(s);
      DedupOfAscending(front);
      assert s == front + [Last(s)];
      if s[|s| - 2] != s[|s| - 1] {
        var r := Dedup(front);
        forall i | 0 <= i < |r| ensures Less(r[i], Last(s)) {
          LessIsTotal(s[|s| - 2], s[|s| - 1]);
          if i < |r| - 1 {
            LessIsTransitive(r[i], r[|r| - 1], Last(s));
          }
        }
      }
    }
  }

  /** The result lists every stream that has a row, once, and each before the ones it precedes. */
  lemma {:induction false} DistinctStreamsEnumerate(ws: seq<WitnessRow>)
    ensures Enumerates(DistinctStreams(ws), ws)
    ensures forall i, j | 0 <= i < j < |DistinctStreams(ws)| :: Precedes(DistinctStreams(ws)[i], DistinctStreams(ws)[j])
  {
    hide Less, Precedes, SortTexts, Dedup, Collect;
    SortTextsSorts(Collect(ws));
    DedupOfAscending(SortTexts(Collect(ws)));
    var streams := DistinctStreams(ws);
    forall i, j | 0 <= i < j < |streams| ensures streams[i] != streams[j] && Precedes(streams[i], streams[j]) {
      LessIsTotal(streams[i], streams[j]);
      LessIsPrecedes(streams[i], streams[j]);
    }
    forall s ensures s in streams <==> exists w :: w in ws && w.streamId == s {
      CollectMembers(ws, s);
    }
  }
}
