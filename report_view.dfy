/**
 * The printable register (components/ReportView.tsx): four counters over the
 * request list, and one numbered row per request whose date cell shows the
 * calendar part of the submission timestamp.
 */
module ReportView {
  import opened Types
  import opened Seqs
  import opened Strings

  /** Back from the international office or finished. */
  predicate IsReturned(r: Request) {
    r.status == Returned || r.status == ReturnedInternational
  }

  /** Neither of those two statuses. */
  predicate IsPending(r: Request) {
    r.status != Returned && r.status != ReturnedInternational
  }

  /** Signed for by the applicant. */
  predicate IsCompleted(r: Request) {
    HasReceipt(r)
  }

  datatype Stats = Stats(total: nat, pending: nat, completed: nat, returned: nat)

  /** The `stats` object. */
  function StatsOf(rs: seq<Request>): Stats {
    Stats(|rs|, |Filter(IsPending, rs)|, |Filter(IsCompleted, rs)|, |Filter(IsReturned, rs)|)
  }

  /** Pending and returned split the list between them, and no counter exceeds the total. */
  lemma StatsBounds(rs: seq<Request>)
    ensures StatsOf(rs).total == |rs|
    ensures StatsOf(rs).pending + StatsOf(rs).returned == StatsOf(rs).total
    ensures StatsOf(rs).pending <= StatsOf(rs).total
    ensures StatsOf(rs).completed <= StatsOf(rs).total
    ensures StatsOf(rs).returned <= StatsOf(rs).total
  {
    FilterComplement(IsPending, IsReturned, rs);
  }

  /** The counters depend only on which requests there are, not on their order. */
  lemma StatsPermutation(a: seq<Request>, b: seq<Request>)
    requires multiset(a) == multiset(b)
    ensures StatsOf(a) == StatsOf(b)
  {
    FilterCountPermutation(IsPending, a, b);
    FilterCountPermutation(IsCompleted, a, b);
    FilterCountPermutation(IsReturned, a, b);
    assert |a| == |multiset(a)| == |multiset(b)| == |b|;
  }

  /** The counters of a list with no request signed for, no request back yet: all pending. */
  lemma StatsAllPending(rs: seq<Request>)
    requires forall r :: r in rs ==> IsPending(r) && !IsCompleted(r)
    ensures StatsOf(rs) == Stats(|rs|, |rs|, 0, 0)
  {
    FilterAll(IsPending, rs);
    FilterComplement(IsPending, IsReturned, rs);
    assert Filter(IsCompleted, rs) == [] by {
      if Filter(IsCompleted, rs) != [] {
        assert Filter(IsCompleted, rs)[0] in Filter(IsCompleted, rs);
      }
    }
  }

  /** One table row: its running number and the request it shows. */
  datatype Row = Row(number: nat, request: Request)

  /** `requests.map((req, idx) => ... idx + 1 ...)`. */
  function Rows(rs: seq<Request>): seq<Row> {
    seq(|rs|, i requires 0 <= i < |rs| => Row(i + 1, rs[i]))
  }

  /** The rows show every request once, in list order, under strictly increasing numbers
      running from 1 to n, so the numbers are exactly 1..n; an empty list shows no row. */
  lemma RowsNumbered(rs: seq<Request>)
    ensures |Rows(rs)| == |rs|
    ensures forall i :: 0 <= i < |rs| ==> Rows(rs)[i].request == rs[i]
    ensures forall i, j :: 0 <= i < j < |rs| ==> Rows(rs)[i].number < Rows(rs)[j].number
    ensures rs != [] ==> Rows(rs)[0].number == 1 && Rows(rs)[|rs| - 1].number == |rs|
    ensures rs == [] <==> Rows(rs) == []
  {
  }

  /** The date cell: `submissionDate.split(',')[0]`. */
  function DateCell(d: string): string {
    Split(d, ',')[0]
  }

  /** The date cell is the part of the timestamp before its first comma: a prefix without
      a comma, followed in the timestamp by a comma or by nothing. */
  lemma DateCellPrefix(d: string)
    ensures ',' !in DateCell(d)
    ensures |DateCell(d)| <= |d| && d[..|DateCell(d)|] == DateCell(d)
    ensures |DateCell(d)| < |d| ==> d[|DateCell(d)|] == ','
    ensures ',' !in d ==> DateCell(d) == d
  {
    var parts := Split(d, ',');
    JoinSplit(d, ',');
    if |parts| > 1 {
      assert d == parts[0] + [','] + JoinWith(parts[1..], [',']);
    }
    if ',' !in d {
      SplitNone(d, ',');
    }
  }
}
