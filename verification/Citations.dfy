/**
 * What a reader sees highlighted on a page: the viewer's `segments` loop, fed with the passages the
 * server sorts by start offset.
 */
module Citations {
  import opened Ints
  import opened Sorting

  datatype Passage = Passage(start: int, end: int, quote: string)

  /** One entry of the array `segments` builds. */
  datatype Run = Run(text: string, cited: bool)

  /** The page text the runs spell when read one after another. */
  function Spelled(runs: seq<Run>): string {
    if runs == [] then "" else Spelled(runs[..|runs| - 1]) + runs[|runs| - 1].text
  }

  /** For every character the runs spell, whether it is drawn as cited. */
  function Marks(runs: seq<Run>): seq<bool> {
    if runs == [] then []
    else Marks(runs[..|runs| - 1]) + seq(|runs[|runs| - 1].text|, _ => runs[|runs| - 1].cited)
  }

  lemma PushRun(runs: seq<Run>, run: Run)
    ensures Spelled(runs + [run]) == Spelled(runs) + run.text
    ensures Marks(runs + [run]) == Marks(runs) + seq(|run.text|, _ => run.cited)
  {
    assert (runs + [run])[..|runs|] == runs;
  }

  /** One past the last position a passage moves the cursor to, before clipping to the page. */
  function Reach(p: Passage): int {
    if p.start < p.end then p.end else p.start
  }

  /** Passage `k` is the first one in list order that reaches past position `i`. */
  ghost predicate FirstPast(passages: seq<Passage>, k: nat, i: nat) {
    && k < |passages|
    && i < Reach(passages[k])
    && forall j :: 0 <= j < k ==> Reach(passages[j]) <= i
  }

  /** Position `i` is highlighted: the first passage reaching past it starts at or before it. */
  ghost predicate Highlighted(passages: seq<Passage>, i: nat) {
    exists k: nat :: FirstPast(passages, k, i) && passages[k].start <= i
  }

  /** Some passage's half-open range contains `i`. */
  ghost predicate Covered(passages: seq<Passage>, i: nat) {
    exists p :: p in passages && p.start <= i < p.end
  }

  lemma FirstPastIsUnique(passages: seq<Passage>, k: nat, l: nat, i: nat)
    requires FirstPast(passages, k, i) && FirstPast(passages, l, i)
    ensures k == l
  {
  }

  lemma {:induction false} FirstPastExists(passages: seq<Passage>, bound: nat, i: nat) returns (k: nat)
    requires bound < |passages| && i < Reach(passages[bound])
    ensures FirstPast(passages, k, i) && k <= bound
  {
    if j: nat :| j < bound && i < Reach(passages[j]) {
      k := FirstPastExists(passages, j, i);
    } else {
      k := bound;
    }
  }

  /** The runs so far draw the first `cursor` characters of the page, and draw them right. */
  ghost predicate Drawn(text: string, passages: seq<Passage>, out: seq<Run>, cursor: nat) {
    && cursor <= |text|
    && (forall r :: r in out ==> r.text != "")
    && Spelled(out) == text[..cursor]
    && |Marks(out)| == cursor
    && forall i: nat :: i < cursor ==> (Marks(out)[i] <==> Highlighted(passages, i))
  }

  lemma DrawRun(text: string, passages: seq<Passage>, out: seq<Run>, lo: nat, hi: nat, cited: bool)
    requires Drawn(text, passages, out, lo) && lo < hi <= |text|
    requires forall i: nat :: lo <= i < hi ==> (Highlighted(passages, i) <==> cited)
    ensures Drawn(text, passages, out + [Run(text[lo..hi], cited)], hi)
  {
    PushRun(out, Run(text[lo..hi], cited));
    assert text[..hi] == text[..lo] + text[lo..hi];
  }

  /** Every character from the cursor on still waits for a passage that reaches past it. */
  lemma PassageDecides(passages: seq<Passage>, k: nat, i: nat)
    requires k < |passages| && i < Reach(passages[k])
    requires forall j :: 0 <= j < k ==> Reach(passages[j]) <= i
    ensures Highlighted(passages, i) <==> passages[k].start <= i
  {
    assert FirstPast(passages, k, i);
    if l: nat :| FirstPast(passages, l, i) && passages[l].start <= i {
      FirstPastIsUnique(passages, k, l, i);
    }
  }

  /**
   * The loop of `segments`, for any offsets at all: negative, inverted, overlapping, unsorted. No run is
   * empty, no character is dropped or repeated, and the drawn marks are exactly `Highlighted`.
   */
  method Segments(text: string, passages: seq<Passage>) returns (out: seq<Run>)
    ensures forall r :: r in out ==> r.text != ""
    ensures Spelled(out) == text
    ensures |Marks(out)| == |text|
    ensures forall i: nat :: i < |text| ==> (Marks(out)[i] <==> Highlighted(passages, i))
  {
    out := [];
    var cursor := 0;
    for k := 0 to |passages|
      invariant 0 <= cursor && Drawn(text, passages, out, cursor)
      invariant forall j :: 0 <= j < k ==> Min(Reach(passages[j]), |text|) <= cursor
    {
      var passage := passages[k];
      var start := Max(cursor, Min(passage.start, |text|));
      var end := Max(start, Min(passage.end, |text|));
      forall i: nat | cursor <= i < end
        ensures Highlighted(passages, i) <==> start <= i
      {
        PassageDecides(passages, k, i);
      }
      if start > cursor {
        DrawRun(text, passages, out, cursor, start, false);
        out := out + [Run(text[cursor..start], false)];
      }
      if end > start {
        DrawRun(text, passages, out, start, end, true);
        out := out + [Run(text[start..end], true)];
      }
      cursor := Max(cursor, end);
    }
    if cursor < |text| {
      DrawRun(text, passages, out, cursor, |text|, false);
      out := out + [Run(text[cursor..], false)];
    }
  }

  /** `sorted(page.passages, key=lambda item: item.start_offset)`. */
  predicate StartsNoLater(p: Passage, q: Passage) { p.start <= q.start }

  /** The CHECK constraints on the passage table. */
  predicate Storable(p: Passage) { 0 <= p.start < p.end }

  /** In start order, with the table's CHECK constraints, highlighting is exactly coverage. */
  lemma SortedHighlightsWhatIsCovered(passages: seq<Passage>, i: nat)
    requires Ordered(passages, StartsNoLater)
    requires forall p :: p in passages ==> Storable(p)
    ensures Highlighted(passages, i) <==> Covered(passages, i)
  {
    if Covered(passages, i) {
      var n :| 0 <= n < |passages| && passages[n].start <= i < passages[n].end;
      var k := FirstPastExists(passages, n, i);
      assert k < n ==> StartsNoLater(passages[k], passages[n]);
    }
    if k: nat :| FirstPast(passages, k, i) && passages[k].start <= i {
      assert passages[k] in passages;
    }
  }

  /** Why the server sorts: of any two passages, every covered position is highlighted exactly when the earlier comes first. */
  lemma PairNeedsOrderIff(p: Passage, q: Passage)
    requires Storable(p) && Storable(q)
    ensures (forall i: nat :: Highlighted([p, q], i) <==> Covered([p, q], i)) <==> StartsNoLater(p, q)
  {
    var passages := [p, q];
    if StartsNoLater(p, q) {
      forall i: nat ensures Highlighted(passages, i) <==> Covered(passages, i) {
        SortedHighlightsWhatIsCovered(passages, i);
      }
    } else {
      assert passages[1] in passages && Covered(passages, q.start);
      assert FirstPast(passages, 0, q.start);
      if k: nat :| FirstPast(passages, k, q.start) && passages[k].start <= q.start {
        FirstPastIsUnique(passages, 0, k, q.start);
      }
    }
  }

  /**
   * `read_document` followed by `segments`: whatever order the database returns the passages in, exactly
   * the covered positions of the page are drawn as cited.
   */
  method ReadAndHighlight(text: string, stored: seq<Passage>) returns (out: seq<Run>)
    requires forall p :: p in stored ==> Storable(p)
    ensures forall r :: r in out ==> r.text != ""
    ensures Spelled(out) == text
    ensures |Marks(out)| == |text|
    ensures forall i: nat :: i < |text| ==> (Marks(out)[i] <==> Covered(stored, i))
  {
    var served := Sort(stored, StartsNoLater);
    out := Segments(text, served);
    forall i: nat | i < |text| ensures Highlighted(served, i) <==> Covered(stored, i) {
      ServedInOrder(stored);
      SortedHighlightsWhatIsCovered(served, i);
    }
  }

  lemma ServedInOrder(stored: seq<Passage>)
    ensures var served := Sort(stored, StartsNoLater);
      && Ordered(served, StartsNoLater)
      && (forall p :: p in served <==> p in stored)
      && forall i: nat :: Covered(served, i) <==> Covered(stored, i)
  {
    var served := Sort(stored, StartsNoLater);
    SortOrders(stored, StartsNoLater);
    SortPermutes(stored, StartsNoLater);
    forall p ensures p in served <==> p in stored {
      assert p in multiset(served) <==> p in multiset(stored);
    }
  }

  /** The stored quote is the text its offsets select. */
  predicate Matches(text: string, p: Passage) {
    0 <= p.start <= p.end <= |text| && text[p.start..p.end] == p.quote
  }

}
