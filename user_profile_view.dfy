/**
 * The requester directory (components/UserProfile.tsx): requests are folded,
 * in list order, into one entry per requester keyed by the lower-cased,
 * trimmed email; the entries are then filtered by a search box, and each
 * entry's last notification outcome is shown as a badge.
 *
 * Submission dates are compared through `time`, which stands for
 * `new Date(...)`: `time(a) > time(b)` models `new Date(a) > new Date(b)`.
 */
module UserProfileView {
  import opened Types
  import opened Seqs
  import opened Strings

  /** The default notification outcome, "never sent". */
  const NeverSent: string := "ยังไม่เคยส่ง"

  /** One requester's entry. */
  datatype Aggregate = Aggregate(
    fullName: string,
    email: string,
    internalPhone: string,
    mobilePhone: string,
    requestCount: nat,
    lastRequestDate: string,
    latestRequestId: int,
    lastEmailStatus: string,
    allRequestedTypes: set<CertType>)

  /** The grouping key: the email, lower-cased and then trimmed. */
  function Key(r: Request): string {
    Trim(Lower(r.email))
  }

  /** `req.lastEmailStatus || 'ยังไม่เคยส่ง'`. */
  function EmailStatusOrDefault(r: Request): string {
    if Truthy(r.lastEmailStatus) then r.lastEmailStatus.value else NeverSent
  }

  function TypesOf(r: Request): set<CertType> {
    set t | t in r.selectedTypes
  }

  /** The entry created for the first request with a new key. */
  function NewEntry(r: Request): Aggregate {
    Aggregate(r.fullName, r.email, r.internalPhone, r.mobilePhone, 1, r.submissionDate,
              r.id, EmailStatusOrDefault(r), TypesOf(r))
  }

  /** A later request with the same key: one more request, its types added, and the
      name, date, id and outcome taken over only when its date is strictly later. */
  function Absorb(e: Aggregate, r: Request, time: string -> int): Aggregate {
    var counted := e.(requestCount := e.requestCount + 1,
                      allRequestedTypes := e.allRequestedTypes + TypesOf(r));
    if time(r.submissionDate) > time(e.lastRequestDate) then
      counted.(fullName := r.fullName, lastRequestDate := r.submissionDate,
               latestRequestId := r.id, lastEmailStatus := EmailStatusOrDefault(r))
    else counted
  }

  /** The `Map` being filled: its keys in insertion order, and its entries. */
  datatype Directory = Directory(keys: seq<string>, entries: map<string, Aggregate>)

  ghost predicate WellFormed(d: Directory) {
    && (forall i, j :: 0 <= i < j < |d.keys| ==> d.keys[i] != d.keys[j])
    && (forall k :: k in d.entries <==> k in d.keys)
  }

  // The fold is stated for any grouping key `key`; the component's is `Key`.

  function Step(d: Directory, r: Request, key: Request -> string, time: string -> int): Directory {
    var k := key(r);
    if k in d.entries then Directory(d.keys, d.entries[k := Absorb(d.entries[k], r, time)])
    else Directory(d.keys + [k], d.entries[k := NewEntry(r)])
  }

  /** Some request in `rs` has key `k`. */
  predicate Seen(rs: seq<Request>, key: Request -> string, k: string) {
    rs != [] && (key(rs[|rs| - 1]) == k || Seen(rs[..|rs| - 1], key, k))
  }

  /** The directory after `rs.forEach(...)`: one entry per distinct key, keys in the order
      they first occur. */
  function Fold(rs: seq<Request>, key: Request -> string, time: string -> int): (d: Directory)
    ensures WellFormed(d)
    ensures forall k :: k in d.entries <==> Seen(rs, key, k)
  {
    if rs == [] then Directory([], map[])
    else Step(Fold(rs[..|rs| - 1], key, time), rs[|rs| - 1], key, time)
  }

  /** One more request is one more step of the fold. */
  lemma FoldPrefix(rs: seq<Request>, i: nat, key: Request -> string, time: string -> int)
    requires i < |rs|
    ensures Fold(rs[..i + 1], key, time) == Step(Fold(rs[..i], key, time), rs[i], key, time)
  {
    assert rs[..i + 1][..i] == rs[..i];
  }

  /** `Seen` means what it says: some index holds a request with the key. */
  lemma {:induction false} SeenIndex(rs: seq<Request>, key: Request -> string, k: string)
    ensures Seen(rs, key, k) <==> exists j :: 0 <= j < |rs| && key(rs[j]) == k
  {
    if rs != [] {
      var ps := rs[..|rs| - 1];
      SeenIndex(ps, key, k);
      assert forall j :: 0 <= j < |ps| ==> ps[j] == rs[j];
    }
  }

  /** `Array.from(usersMap.values())`. */
  function Entries(d: Directory): seq<Aggregate>
    requires WellFormed(d)
  {
    seq(|d.keys|, i requires 0 <= i < |d.keys| => d.entries[d.keys[i]])
  }

  predicate UserMatches(q: string, u: Aggregate) {
    Contains(Lower(u.fullName), Lower(q)) || Contains(Lower(u.email), Lower(q))
  }

  /** The search box: case-insensitive substring match on name or email. */
  function SearchUsers(users: seq<Aggregate>, q: string): seq<Aggregate> {
    Filter(u => UserMatches(q, u), users)
  }

  /** The `forEach` loop of the `uniqueUsers` memo: the directory is filled by updating a
      map entry by entry. */
  method GroupBy(rs: seq<Request>, key: Request -> string, time: string -> int)
    returns (keys: seq<string>, usersMap: map<string, Aggregate>)
    ensures Directory(keys, usersMap) == Fold(rs, key, time)
  {
    keys := [];
    usersMap := map[];
    var i := 0;
    while i < |rs|
      invariant 0 <= i <= |rs|
      invariant Directory(keys, usersMap) == Fold(rs[..i], key, time)
    {
      var req := rs[i];
      var email := key(req);
      ghost var before := Directory(keys, usersMap);
      FoldPrefix(rs, i, key, time);
      if email !in usersMap {
        usersMap := usersMap[email := NewEntry(req)];
        keys := keys + [email];
      } else {
        var existing := usersMap[email];
        existing := existing.(requestCount := existing.requestCount + 1);
        existing := existing.(allRequestedTypes := existing.allRequestedTypes + TypesOf(req));
        if time(req.submissionDate) > time(existing.lastRequestDate) {
          existing := existing.(fullName := req.fullName);
          existing := existing.(lastRequestDate := req.submissionDate);
          existing := existing.(latestRequestId := req.id);
          existing := existing.(lastEmailStatus := EmailStatusOrDefault(req));
        }
        usersMap := usersMap[email := existing];
      }
      assert Directory(keys, usersMap) == Step(before, req, key, time);
      i := i + 1;
    }
    assert rs[..|rs|] == rs;
  }

  /** The `uniqueUsers` memo: requests grouped by lower-cased, trimmed email, then the
      search filter. */
  method UniqueUsers(rs: seq<Request>, searchQuery: string, time: string -> int)
    returns (users: seq<Aggregate>)
    ensures users == SearchUsers(Entries(Fold(rs, Key, time)), searchQuery)
  {
    var keys, usersMap := GroupBy(rs, Key, time);
    var all := Entries(Directory(keys, usersMap));
    users := Filter(u => UserMatches(searchQuery, u), all);
  }

  // ---------------------------------------------------------------------------
  // What the fold computes

  /** The number of requests with key `k`. */
  function CountKey(rs: seq<Request>, key: Request -> string, k: string): nat {
    if rs == [] then 0
    else CountKey(rs[..|rs| - 1], key, k) + (if key(rs[|rs| - 1]) == k then 1 else 0)
  }

  /** The union of the types of the requests with key `k`. */
  function TypesOfKey(rs: seq<Request>, key: Request -> string, k: string): set<CertType> {
    if rs == [] then {}
    else TypesOfKey(rs[..|rs| - 1], key, k)
         + (if key(rs[|rs| - 1]) == k then TypesOf(rs[|rs| - 1]) else {})
  }

  /** Each entry's count is the number of requests with its key. */
  lemma {:induction false} FoldCount(rs: seq<Request>, key: Request -> string, time: string -> int, k: string)
    requires k in Fold(rs, key, time).entries
    ensures Fold(rs, key, time).entries[k].requestCount == CountKey(rs, key, k)
  {
    var ps := rs[..|rs| - 1];
    if k in Fold(ps, key, time).entries {
      FoldCount(ps, key, time, k);
    } else {
      CountKeyUnseen(ps, key, k);
    }
  }

  lemma {:induction false} CountKeyUnseen(rs: seq<Request>, key: Request -> string, k: string)
    requires !Seen(rs, key, k)
    ensures CountKey(rs, key, k) == 0
  {
    if rs != [] {
      CountKeyUnseen(rs[..|rs| - 1], key, k);
    }
  }

  /** Each entry's type set is the union of the types of the requests with its key. */
  lemma {:induction false} FoldTypes(rs: seq<Request>, key: Request -> string, time: string -> int, k: string)
    requires k in Fold(rs, key, time).entries
    ensures Fold(rs, key, time).entries[k].allRequestedTypes == TypesOfKey(rs, key, k)
  {
    var ps := rs[..|rs| - 1];
    if k in Fold(ps, key, time).entries {
      FoldTypes(ps, key, time, k);
    } else {
      TypesOfKeyUnseen(ps, key, k);
    }
  }

  lemma {:induction false} TypesOfKeyUnseen(rs: seq<Request>, key: Request -> string, k: string)
    requires !Seen(rs, key, k)
    ensures TypesOfKey(rs, key, k) == {}
  {
    if rs != [] {
      TypesOfKeyUnseen(rs[..|rs| - 1], key, k);
    }
  }

  /** The sum of the counts over the keys. */
  function SumCounts(keys: seq<string>, m: map<string, Aggregate>): int
    requires forall k :: k in keys ==> k in m
  {
    if keys == [] then 0 else m[keys[0]].requestCount + SumCounts(keys[1..], m)
  }

  lemma {:induction false} SumCountsAppend(keys: seq<string>, k: string, m: map<string, Aggregate>)
    requires forall x :: x in keys ==> x in m
    requires k in m
    ensures SumCounts(keys + [k], m) == SumCounts(keys, m) + m[k].requestCount
  {
    if keys != [] {
      assert (keys + [k])[1..] == keys[1..] + [k];
      SumCountsAppend(keys[1..], k, m);
    }
  }

  lemma {:induction false} SumCountsUpdate(keys: seq<string>, m: map<string, Aggregate>, k: string, v: Aggregate)
    requires forall x :: x in keys ==> x in m
    requires forall i, j :: 0 <= i < j < |keys| ==> keys[i] != keys[j]
    ensures k in keys ==> SumCounts(keys, m[k := v]) == SumCounts(keys, m) - m[k].requestCount + v.requestCount
    ensures k !in keys ==> SumCounts(keys, m[k := v]) == SumCounts(keys, m)
  {
    if keys != [] {
      SumCountsUpdate(keys[1..], m, k, v);
      if keys[0] == k {
        assert k !in keys[1..];
      }
    }
  }

  /** Before the search, the counts add up to the length of the list. */
  lemma {:induction false} FoldCountsSum(rs: seq<Request>, key: Request -> string, time: string -> int)
    ensures SumCounts(Fold(rs, key, time).keys, Fold(rs, key, time).entries) == |rs|
  {
    if rs != [] {
      var ps := rs[..|rs| - 1];
      var x := rs[|rs| - 1];
      var d0 := Fold(ps, key, time);
      var k := key(x);
      FoldCountsSum(ps, key, time);
      if k in d0.entries {
        SumCountsUpdate(d0.keys, d0.entries, k, Absorb(d0.entries[k], x, time));
      } else {
        SumCountsUpdate(d0.keys, d0.entries, k, NewEntry(x));
        SumCountsAppend(d0.keys, k, d0.entries[k := NewEntry(x)]);
      }
    }
  }

  /** Email and phone numbers come from the first request with the key, `j`, and are never
      overwritten. */
  lemma {:induction false} FoldFirstSeen(rs: seq<Request>, key: Request -> string, time: string -> int, k: string)
    returns (j: nat)
    requires k in Fold(rs, key, time).entries
    ensures j < |rs| && key(rs[j]) == k
    ensures forall i :: 0 <= i < j ==> key(rs[i]) != k
    ensures Fold(rs, key, time).entries[k].email == rs[j].email
    ensures Fold(rs, key, time).entries[k].internalPhone == rs[j].internalPhone
    ensures Fold(rs, key, time).entries[k].mobilePhone == rs[j].mobilePhone
  {
    var ps := rs[..|rs| - 1];
    var d0 := Fold(ps, key, time);
    assert forall i :: 0 <= i < |ps| ==> ps[i] == rs[i];
    if k in d0.entries {
      j := FoldFirstSeen(ps, key, time, k);
    } else {
      j := |rs| - 1;
      SeenIndex(ps, key, k);
    }
  }

  /** Request `j` is the first of the requests with key `k` to carry the latest date:
      every earlier one with the key is strictly older and no later one is newer. */
  ghost predicate LatestAt(rs: seq<Request>, key: Request -> string, time: string -> int, k: string, j: int) {
    && 0 <= j < |rs| && key(rs[j]) == k
    && (forall i :: 0 <= i < j && key(rs[i]) == k ==>
          time(rs[i].submissionDate) < time(rs[j].submissionDate))
    && (forall i :: j < i < |rs| && key(rs[i]) == k ==>
          time(rs[i].submissionDate) <= time(rs[j].submissionDate))
  }

  /** How the latest request moves when one more request arrives. */
  lemma LatestExtend(rs: seq<Request>, key: Request -> string, time: string -> int, k: string, j0: int)
    requires |rs| > 0 && LatestAt(rs[..|rs| - 1], key, time, k, j0)
    ensures var x := rs[|rs| - 1];
      if key(x) == k && time(x.submissionDate) > time(rs[j0].submissionDate)
      then LatestAt(rs, key, time, k, |rs| - 1)
      else LatestAt(rs, key, time, k, j0)
  {
    var n := |rs| - 1;
    var ps := rs[..n];
    assert forall i :: 0 <= i < n ==> ps[i] == rs[i];
  }

  /** The first request with a key is, so far, its latest. */
  lemma LatestFirst(rs: seq<Request>, key: Request -> string, time: string -> int, k: string)
    requires |rs| > 0 && !Seen(rs[..|rs| - 1], key, k) && key(rs[|rs| - 1]) == k
    ensures LatestAt(rs, key, time, k, |rs| - 1)
  {
    var n := |rs| - 1;
    var ps := rs[..n];
    SeenIndex(ps, key, k);
    assert forall i :: 0 <= i < n ==> ps[i] == rs[i];
  }

  /** The name, date, id and outcome shown for a requester all come from one request `j`:
      the first of those with its key to carry the latest date, so a tie keeps the earlier
      request. */
  lemma {:induction false} FoldLatest(rs: seq<Request>, key: Request -> string, time: string -> int, k: string)
    returns (j: int)
    requires k in Fold(rs, key, time).entries
    ensures LatestAt(rs, key, time, k, j)
    ensures var e := Fold(rs, key, time).entries[k];
      && e.fullName == rs[j].fullName && e.lastRequestDate == rs[j].submissionDate
      && e.latestRequestId == rs[j].id && e.lastEmailStatus == EmailStatusOrDefault(rs[j])
  {
    var n := |rs| - 1;
    var ps, x := rs[..n], rs[n];
    var d0 := Fold(ps, key, time);
    assert Fold(rs, key, time) == Step(d0, x, key, time);
    if k in d0.entries {
      var j0 := FoldLatest(ps, key, time, k);
      assert ps[j0] == rs[j0];
      LatestExtend(rs, key, time, k, j0);
      if key(x) == k && time(x.submissionDate) > time(rs[j0].submissionDate) {
        j := n;
      } else {
        j := j0;
      }
    } else {
      j := n;
      LatestFirst(rs, key, time, k);
    }
  }

  /** Two requests with the same key share one entry that counts both and holds both
      requests' types. */
  lemma SameKeyFoldsTogether(r1: Request, r2: Request, key: Request -> string, time: string -> int)
    requires key(r1) == key(r2)
    ensures Fold([r1, r2], key, time).keys == [key(r1)]
    ensures Fold([r1, r2], key, time).entries[key(r1)].requestCount == 2
    ensures Fold([r1, r2], key, time).entries[key(r1)].allRequestedTypes == TypesOf(r1) + TypesOf(r2)
  {
    FoldPrefix([r1, r2], 0, key, time);
    FoldPrefix([r1, r2], 1, key, time);
    assert [r1, r2][..2] == [r1, r2];
    assert [r1, r2][..0] == [];
  }

  /** The worked example: "a@x.com" and "A@X.com " have the same key. */
  lemma CaseAndSpaceVariantsShareKey(r1: Request, r2: Request)
    requires r1.email == "a@x.com" && r2.email == "A@X.com "
    ensures Key(r1) == Key(r2)
  {
    var e1, e2 := r1.email, r2.email;
    LowerUnchanged(e1);
    assert Lower(e2) == e1 + " " by {
      assert forall i :: 0 <= i < |e2| ==> Lower(e2)[i] == (e1 + " ")[i];
    }
    assert NoSpace(e1);
    var pad := e2[|e1|..];
    assert forall i :: 0 <= i < |pad| ==> IsSpace(pad[i]);
    TrimTrailing(e1, pad);
    assert e1 + pad == e1 + " ";
  }

  // ---------------------------------------------------------------------------
  // Search and badge

  /** The search keeps exactly the entries whose name or email contains the query, in
      order; an empty query keeps them all. */
  lemma SearchUsersSpec(users: seq<Aggregate>, q: string)
    ensures forall u :: u in SearchUsers(users, q) <==> u in users && UserMatches(q, u)
    ensures IsSubsequence(SearchUsers(users, q), users)
    ensures q == "" ==> SearchUsers(users, q) == users
  {
    FilterIsSubsequence(u => UserMatches(q, u), users);
    if q == "" {
      forall u | u in users
        ensures UserMatches(q, u)
      {
        ContainsEmpty(Lower(u.fullName));
      }
      FilterAll(u => UserMatches(q, u), users);
    }
  }

  datatype EmailBadge = Sent | Failed | Pending

  const SentText: string := "ส่งแล้ว"
  const FailedPrefix: string := "ส่งไม่ได้"

  /** `getEmailStatusBadge`. */
  function EmailBadgeOf(status: string): EmailBadge {
    if status == SentText then Sent
    else if StartsWith(status, FailedPrefix) then Failed
    else Pending
  }

  /** Exactly "sent" is sent; a "could not send" prefix is failed; anything else is pending,
      the default outcome of a requester never notified included. */
  lemma EmailBadgeClassification(status: string)
    ensures EmailBadgeOf(status) == Sent <==> status == SentText
    ensures EmailBadgeOf(status) == Failed <==> StartsWith(status, FailedPrefix)
    ensures EmailBadgeOf(status) == Pending <==> status != SentText && !StartsWith(status, FailedPrefix)
    ensures EmailBadgeOf(NeverSent) == Pending
  {
    assert |SentText| < |FailedPrefix|;
    assert NeverSent[0] != FailedPrefix[0];
  }
}
