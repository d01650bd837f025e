/**
 * The administrator's request table (components/CertificateTable.tsx): the
 * search over name, id and email, the truncated certificate chips, the
 * contact-number fallback, and the colour style of each status.
 */
module CertificateTable {
  import opened Types
  import opened Seqs
  import opened Strings

  /** A request matches by lower-cased name or email containing the lower-cased query, or by
      an id string containing the query as typed. */
  predicate TableMatches(q: string, r: Request) {
    || Contains(Lower(r.fullName), Lower(q))
    || Contains(IntToString(r.id), q)
    || Contains(Lower(r.email), Lower(q))
  }

  /** `filteredRequests`. */
  function TableRequests(rs: seq<Request>, q: string): seq<Request> {
    Filter(r => TableMatches(q, r), rs)
  }

  /** The table shows exactly the matching requests, in list order; an empty query shows
      them all. */
  lemma TableRequestsSpec(rs: seq<Request>, q: string)
    ensures forall r :: r in TableRequests(rs, q) <==> r in rs && TableMatches(q, r)
    ensures IsSubsequence(TableRequests(rs, q), rs)
    ensures q == "" ==> TableRequests(rs, q) == rs
  {
    FilterIsSubsequence(r => TableMatches(q, r), rs);
    if q == "" {
      forall r | r in rs
        ensures TableMatches(q, r)
      {
        ContainsEmpty(Lower(r.fullName));
      }
      FilterAll(r => TableMatches(q, r), rs);
    }
  }

  /** Unlike the tracking page, the table finds a request by any part of its id: the full id
      string always matches its own request. */
  lemma TableFindsById(rs: seq<Request>, r: Request)
    requires r in rs
    ensures r in TableRequests(rs, IntToString(r.id))
  {
    var s := IntToString(r.id);
    assert OccursAt(s, s, 0);
    TableRequestsSpec(rs, s);
  }

  /** The certificate cell: at most two chips, and the number of the others when there are
      any. */
  datatype Chips = Chips(shown: seq<CertType>, more: Option<nat>)

  function TypeChips(types: seq<CertType>): Chips {
    Chips(Take(types, 2), if |types| > 2 then Some(|types| - 2) else None)
  }

  /** The chips are the first `min(n, 2)` tags; the `+k` marker appears exactly when there
      are more than two, and chips and marker together account for every tag. */
  lemma TypeChipsSpec(types: seq<CertType>)
    ensures |TypeChips(types).shown| == if |types| < 2 then |types| else 2
    ensures TypeChips(types).shown == types[..|TypeChips(types).shown|]
    ensures TypeChips(types).more.Some? <==> |types| > 2
    ensures |TypeChips(types).shown| + (if TypeChips(types).more.Some? then TypeChips(types).more.value else 0)
            == |types|
  {
  }

  /** `req.mobilePhone || req.internalPhone || '-'`. */
  function Contact(r: Request): string {
    if r.mobilePhone != "" then r.mobilePhone
    else if r.internalPhone != "" then r.internalPhone
    else "-"
  }

  /** The contact prefers the mobile number, falls back to the internal one, and is never
      blank. */
  lemma ContactSpec(r: Request)
    ensures Contact(r) != ""
    ensures r.mobilePhone != "" ==> Contact(r) == r.mobilePhone
    ensures r.mobilePhone == "" && r.internalPhone != "" ==> Contact(r) == r.internalPhone
    ensures r.mobilePhone == "" && r.internalPhone == "" ==> Contact(r) == "-"
    ensures Contact(r) == r.mobilePhone || Contact(r) == r.internalPhone || Contact(r) == "-"
  {
  }

  /** The colour family of each status badge. */
  function Colour(s: Status): string {
    match s
    case AtHr => "slate"
    case SentHrAdmin => "orange"
    case SentInternational => "pink"
    case ReturnedHrAdmin => "blue"
    case ReturnedInternational => "indigo"
    case Returned => "emerald"
  }

  /** `getStatusStyle`: background shade 100, text shade 600 for the HR desk and 700 for
      the rest, border shade 200, all in the status's colour family. */
  function StatusStyle(s: Status): string {
    "bg-" + Colour(s) + StyleTail(s)
  }

  /** Everything of a style after its background colour family. */
  function StyleTail(s: Status): string {
    var c := Colour(s);
    "-100 text-" + c + "-" + (if s == AtHr then "600" else "700") + " border-" + c + "-200"
  }

  /** The fallback style of the `default` branch, which no status reaches. */
  const FallbackStyle: string := "bg-slate-100 text-slate-700"

  /** No two statuses share a style, and none gets the fallback style. */
  lemma StatusStyleInjective(s: Status, t: Status)
    ensures StatusStyle(s) == StatusStyle(t) <==> s == t
    ensures StatusStyle(s) != FallbackStyle
  {
    StyleHead(s);
    StyleHead(t);
    if Colour(s)[0] == Colour(t)[0] {
      ColourInitialInjective(s, t);
    }
  }

  lemma StyleHead(s: Status)
    ensures |StatusStyle(s)| > |FallbackStyle| && StatusStyle(s)[3] == Colour(s)[0]
  {
    var c := Colour(s);
    assert |c| >= 4;
    assert |StyleTail(s)| >= 10;
    assert StatusStyle(s)[3] == ("bg-" + c)[3];
  }

  lemma ColourInitialInjective(s: Status, t: Status)
    requires Colour(s)[0] == Colour(t)[0]
    ensures s == t
  {
  }
}
