/**
 * The public pickup board (components/StatusBoard.tsx): a "ready" column of at
 * most six requests, a "processing" column of at most eight, a badge counting
 * in-flight requests, and the name mask that hides most of each requester's name.
 */
module StatusBoard {
  import opened Types
  import opened Seqs
  import opened Strings

  const ReadyCap: nat := 6
  const ProcessingCap: nat := 8
  const Bullet: char := '•'

  /** Back from the international office or finished, and not yet picked up. */
  predicate IsBoardReady(r: Request) {
    (r.status == Returned || r.status == ReturnedInternational) && !HasReceipt(r)
  }

  /** Neither of those two statuses, and not yet picked up. */
  predicate IsBoardProcessing(r: Request) {
    r.status != Returned && r.status != ReturnedInternational && !HasReceipt(r)
  }

  /** What the processing badge counts: not picked up and not finished. */
  predicate IsBadgeCounted(r: Request) {
    !HasReceipt(r) && r.status != Returned
  }

  function ReadyRequests(rs: seq<Request>): seq<Request> {
    Take(Filter(IsBoardReady, rs), ReadyCap)
  }

  function ProcessingRequests(rs: seq<Request>): seq<Request> {
    Take(Filter(IsBoardProcessing, rs), ProcessingCap)
  }

  /** The number on the processing column's badge, as written. */
  function ProcessingBadge(rs: seq<Request>): nat {
    |Filter(IsBadgeCounted, rs)|
  }

  /** The ready column: the first six ready requests, in input order. */
  lemma ReadyColumn(rs: seq<Request>)
    ensures |ReadyRequests(rs)| <= ReadyCap
    ensures forall r :: r in ReadyRequests(rs) ==> r in rs && IsBoardReady(r)
    ensures IsSubsequence(ReadyRequests(rs), rs)
    ensures |ReadyRequests(rs)| == if |Filter(IsBoardReady, rs)| < ReadyCap
                                   then |Filter(IsBoardReady, rs)| else ReadyCap
  {
    var f := Filter(IsBoardReady, rs);
    FilterIsSubsequence(IsBoardReady, rs);
    PrefixIsSubsequence(f, |ReadyRequests(rs)|);
    SubsequenceTransitive(ReadyRequests(rs), f, rs);
  }

  /** The processing column: the first eight processing requests, in input order. */
  lemma ProcessingColumn(rs: seq<Request>)
    ensures |ProcessingRequests(rs)| <= ProcessingCap
    ensures forall r :: r in ProcessingRequests(rs) ==> r in rs && IsBoardProcessing(r)
    ensures IsSubsequence(ProcessingRequests(rs), rs)
    ensures |ProcessingRequests(rs)| == if |Filter(IsBoardProcessing, rs)| < ProcessingCap
                                        then |Filter(IsBoardProcessing, rs)| else ProcessingCap
  {
    var f := Filter(IsBoardProcessing, rs);
    FilterIsSubsequence(IsBoardProcessing, rs);
    PrefixIsSubsequence(f, |ProcessingRequests(rs)|);
    SubsequenceTransitive(ProcessingRequests(rs), f, rs);
  }

  /** No request is in both columns. */
  lemma ColumnsDisjoint(rs: seq<Request>)
    ensures forall r :: r in ReadyRequests(rs) ==> r !in ProcessingRequests(rs)
  {
    ReadyColumn(rs);
    ProcessingColumn(rs);
  }

  /** The badge counts at least every request the processing filter admits. */
  lemma BadgeAtLeastProcessing(rs: seq<Request>)
    ensures ProcessingBadge(rs) >= |Filter(IsBoardProcessing, rs)|
  {
    FilterMonotone(IsBadgeCounted, IsBoardProcessing, rs);
  }

  /** As written, the badge also counts a request the ready column shows: one back from
      the international office and not yet picked up. */
  lemma BadgeCountsReadyRequest(r: Request)
    requires r.status == ReturnedInternational && !HasReceipt(r)
    ensures ReadyRequests([r]) == [r]
    ensures ProcessingRequests([r]) == []
    ensures ProcessingBadge([r]) == 1
  {
  }

  /** The badge as the column heading means it: the number of processing requests. */
  function ProcessingBadgeIntended(rs: seq<Request>): nat {
    |Filter(IsBoardProcessing, rs)|
  }

  /** Corrected, the badge and the ready filter split the not-yet-picked-up requests
      between them, so no request is counted in both columns. */
  lemma IntendedBadgePartition(rs: seq<Request>)
    ensures ProcessingBadgeIntended(rs) + |Filter(IsBoardReady, rs)|
            == |Filter(NotPickedUp, rs)|
    ensures ProcessingBadgeIntended(rs) <= ProcessingBadge(rs)
  {
    var unpicked := Filter(NotPickedUp, rs);
    FilterComplement(IsBoardProcessing, IsBoardReady, unpicked);
    FilterOfUnpicked(IsBoardProcessing, rs);
    FilterOfUnpicked(IsBoardReady, rs);
    BadgeAtLeastProcessing(rs);
  }

  predicate NotPickedUp(r: Request) {
    !HasReceipt(r)
  }

  /** Filtering by a predicate stronger than `NotPickedUp` can first drop the picked-up ones. */
  lemma {:induction false} FilterOfUnpicked(p: Request -> bool, rs: seq<Request>)
    requires forall r :: p(r) ==> NotPickedUp(r)
    ensures Filter(p, Filter(NotPickedUp, rs)) == Filter(p, rs)
  {
    if rs != [] {
      FilterOfUnpicked(p, rs[1..]);
      FilterConcat(p, if NotPickedUp(rs[0]) then [rs[0]] else [], Filter(NotPickedUp, rs[1..]));
    }
  }

  // ---------------------------------------------------------------------------
  // formatName

  function Bullets(n: nat): (s: string)
    ensures |s| == n && forall i :: 0 <= i < n ==> s[i] == Bullet
  {
    if n == 0 then [] else [Bullet] + Bullets(n - 1)
  }

  function Min(a: int, b: int): int {
    if a < b then a else b
  }

  /** The first name token: two characters kept, up to four bullets for the rest. */
  function MaskFirst(t: string): string {
    if |t| > 2 then t[..2] + Bullets(Min(|t| - 2, 4)) else t
  }

  /** The second name token: one character kept, up to four bullets; a token of one
      character or none disappears. */
  function MaskLast(t: string): string {
    if |t| > 1 then t[..1] + Bullets(Min(|t| - 1, 4)) else ""
  }

  /** `formatName`: split on single spaces, mask the first two tokens, drop the rest. */
  function FormatName(name: string): string {
    var parts := Split(name, ' ');
    var first := parts[0];
    var last := if |parts| > 1 then parts[1] else "";
    MaskFirst(first) + " " + MaskLast(last)
  }

  /** A masked first token is at most six characters long, shows at most its first two
      characters and is bullets after them; a token of up to six characters keeps its
      length. */
  lemma MaskFirstShape(t: string)
    ensures |MaskFirst(t)| <= 6
    ensures |t| <= 6 ==> |MaskFirst(t)| == |t|
    ensures |t| > 6 ==> |MaskFirst(t)| == 6
    ensures forall i :: 0 <= i < |MaskFirst(t)| ==>
              MaskFirst(t)[i] == (if i < 2 then t[i] else Bullet)
  {
  }

  /** A masked second token is empty for a token of at most one character, otherwise its
      first character followed by bullets, at most five characters in all. */
  lemma MaskLastShape(t: string)
    ensures |MaskLast(t)| <= 5
    ensures |t| <= 1 ==> MaskLast(t) == ""
    ensures 1 < |t| <= 5 ==> |MaskLast(t)| == |t|
    ensures |t| > 5 ==> |MaskLast(t)| == 5
    ensures forall i :: 0 <= i < |MaskLast(t)| ==>
              MaskLast(t)[i] == (if i == 0 then t[0] else Bullet)
  {
  }

  /** The mask depends on the first two space-separated tokens only: anything after the
      second space is dropped. */
  lemma FormatNameTwoTokens(first: string, last: string, rest: string)
    requires ' ' !in first && ' ' !in last
    ensures FormatName(first + " " + last + " " + rest) == MaskFirst(first) + " " + MaskLast(last)
    ensures FormatName(first + " " + last) == MaskFirst(first) + " " + MaskLast(last)
  {
    assert first + " " + last + " " + rest == first + [' '] + (last + [' '] + rest);
    SplitAt(first, ' ', last + [' '] + rest);
    SplitAt(last, ' ', rest);
    assert first + " " + last == first + [' '] + last;
    SplitAt(first, ' ', last);
    SplitNone(last, ' ');
  }

  /** A name without a space is its masked first token followed by a lone space. */
  lemma FormatNameOneToken(first: string)
    requires ' ' !in first
    ensures FormatName(first) == MaskFirst(first) + " "
  {
    SplitNone(first, ' ');
  }

  /** The worked example: "Somchai Jaidee" is shown as "So•••• J••••". */
  lemma FormatNameExample(name: string)
    requires name == "Somchai Jaidee"
    ensures FormatName(name) == "So•••• J••••"
  {
    var first, last := name[..7], name[8..];
    assert name == first + " " + last;
    assert ' ' !in first;
    assert ' ' !in last;
    FormatNameTwoTokens(first, last, "");
    assert MaskFirst(first) == "So••••";
    assert MaskLast(last) == "J••••";
  }
}
