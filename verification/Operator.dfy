/** What the counting threads' protocol answers: the number of rows found. */
module Operator {
  import Bags
  import opened Filters
  import opened Graphs
  import opened Answering
  import opened Executing
  import opened SliceMethods
  import Checked
  import Protocol
  import CleanRuns

  /** The buckets' counts are what counting a bucket returns. */
  ghost predicate CountsBuckets(c: Protocol.Config, q: Query, data: Data) {
    |c.counts| > 0 && forall i :: 0 <= i < |c.counts| ==> c.counts[i] == |SliceRows(q, data, i, |c.counts|)|
  }

  lemma {:induction false} SumIsPieces(counts: seq<nat>, b: seq<Bags.Tuple>, at: nat -> Bags.Tuple -> bool)
    requires forall i :: 0 <= i < |counts| ==> counts[i] == |Filter(b, at(i))|
    ensures Protocol.Sum(counts) == |Pieces(b, at, |counts|)|
    decreases |counts|
  {
    if counts != [] { SumIsPieces(counts[..|counts| - 1], b, at); }
  }

  /** The buckets' counts add up to the rows in some bucket, and to all rows found where none is cut. */
  lemma SumIsJoin(c: Protocol.Config, q: Query, data: Data)
    requires CountsBuckets(c, q, data)
    ensures Protocol.Sum(c.counts) == |SlicedRows(q, data, |c.counts|)|
    ensures Uncut(q, data) && (|c.counts| == 1 || KeyOfQuery(q) != []) ==> Protocol.Sum(c.counts) == |RowsOf(q, data)|
  {
    hide RowsOf, SliceTests, Uncut, KeyOfQuery;
    SumIsPieces(c.counts, RowsOf(q, data), SliceTests(q, |c.counts|));
    if |c.counts| > 1 { SlicesTogether(q, data, |c.counts|); } else { OnePiece(q, data); }
  }

  lemma OnePiece(q: Query, data: Data)
    ensures Pieces(RowsOf(q, data), SliceTests(q, 1), 1) == RowsOf(q, data)
  {
    hide RowsOf;
    AllPass(RowsOf(q, data), SliceTests(q, 1)(0));
    assert Pieces(RowsOf(q, data), SliceTests(q, 1), 0) == [];
  }

  /** When all threads have finished without an error, the query has been answered once. If no thread
      threw, every bucket was counted and the number fits 64 bits, the answer is the number of rows in
      some bucket, which are all rows found where none is cut, and the join's rows where widths agree
      too; if not, it is all rows of the plan that was replaced. */
  lemma CountAnswered(c: Protocol.Config, q: Query, data: Data, run: seq<Protocol.State>, moves: seq<CleanRuns.Move>, k: nat)
    requires TypesGiven(q.graph) && ValidGraph(q.graph) && ValidData(q.graph, data) && CountsBuckets(c, q, data)
    requires CleanRuns.IsMoved(c, run, moves) && k < |run| && Protocol.Over(run[k])
    ensures var s, rows := run[k], |SlicedRows(q, data, |c.counts|)|;
      var clean := Checked.Int64(rows) && forall j :: 0 <= j < k ==> CleanRuns.Clean(moves[j].step);
      && (clean ==> s.emitted == [rows] && s.handed == [])
      && (!clean ==> s.emitted == [] && multiset(s.handed) == c.stock && c.recoverable)
    ensures Uncut(q, data) && (|c.counts| == 1 || KeyOfQuery(q) != []) ==>
      |SlicedRows(q, data, |c.counts|)| == |FoundRows(q.graph, data)|
    ensures Uncut(q, data) && (|c.counts| == 1 || KeyOfQuery(q) != []) && WidthsAgree(q.graph) ==>
      |SlicedRows(q, data, |c.counts|)| == |JoinRows(q.graph, data)|
  {
    hide FoundRows, JoinRows, Protocol.Over, CleanRuns.IsMoved, CleanRuns.Clean, Uncut, SlicedRows, KeyOfQuery, WidthsAgree;
    SumIsJoin(c, q, data);
    if WidthsAgree(q.graph) { FoundAsAsked(q.graph, data); }
    CleanRuns.TotalIff(c, run, moves, k);
  }
}
