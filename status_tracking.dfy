/**
 * The applicant's tracking page (components/StatusTracking.tsx): a search by
 * name or exact id, the gate in front of the pickup-signature dialog, the
 * dialog's confirm guard, and the progress bar drawn from the position of the
 * request's status in the status order.
 *
 * The status order (`STATUS_OPTIONS`) is defined outside this model and is a
 * parameter `options`.
 */
module StatusTracking {
  import opened Types
  import opened Seqs
  import opened Strings

  // ---------------------------------------------------------------------------
  // Search

  /** The query as compared: trimmed, then lower-cased. */
  function NormalizeQuery(q: string): string {
    Lower(Trim(q))
  }

  /** A request matches a normalised query by a name containing it or by an id equal to it. */
  predicate TrackMatches(q: string, r: Request) {
    Contains(Lower(r.fullName), q) || IntToString(r.id) == q
  }

  /** `filteredRequests`: nothing for a blank query, otherwise the matching requests. */
  function FilteredRequests(rs: seq<Request>, searchQuery: string): seq<Request> {
    var q := NormalizeQuery(searchQuery);
    if q == "" then [] else Filter(r => TrackMatches(q, r), rs)
  }

  /** A query of white space only finds nothing; any other query finds exactly the matching
      requests of the list, in list order. */
  lemma FilteredRequestsSpec(rs: seq<Request>, searchQuery: string)
    ensures (forall i :: 0 <= i < |searchQuery| ==> IsSpace(searchQuery[i])) ==>
              FilteredRequests(rs, searchQuery) == []
    ensures forall r :: r in FilteredRequests(rs, searchQuery) <==>
              Trim(searchQuery) != "" && r in rs && TrackMatches(NormalizeQuery(searchQuery), r)
    ensures IsSubsequence(FilteredRequests(rs, searchQuery), rs)
  {
    TrimEmptyIff(searchQuery);
    var q := NormalizeQuery(searchQuery);
    if q != "" {
      FilterIsSubsequence(r => TrackMatches(q, r), rs);
    }
  }

  /** A direct link's id, as a query, finds the requests with that id and those whose name
      contains its digits. */
  lemma InitialIdQuery(rs: seq<Request>, id: int)
    ensures forall r :: r in FilteredRequests(rs, IntToString(id)) <==>
              r in rs && (r.id == id || Contains(Lower(r.fullName), IntToString(id)))
  {
    var s := IntToString(id);
    IdQueryNormal(id);
    FilteredRequestsSpec(rs, s);
    forall r | r in rs
      ensures IntToString(r.id) == s <==> r.id == id
    {
      if IntToString(r.id) == s {
        IntToStringInjective(r.id, id);
      }
    }
  }

  /** An id's decimal string is already a normalised, non-blank query. */
  lemma IdQueryNormal(id: int)
    ensures NormalizeQuery(IntToString(id)) == IntToString(id)
    ensures Trim(IntToString(id)) != ""
  {
    IntToStringPlain(id);
    PlainIsNormal(IntToString(id));
  }

  lemma PlainIsNormal(s: string)
    requires NoSpace(s) && s != ""
    requires forall i :: 0 <= i < |s| ==> !('A' <= s[i] <= 'Z')
    ensures NormalizeQuery(s) == s && Trim(s) != ""
  {
    TrimNoSpace(s);
    LowerUnchanged(s);
  }

  /** When no name in the list contains the id's digits, the link finds exactly the requests
      with that id. */
  lemma InitialIdExact(rs: seq<Request>, id: int)
    requires forall r :: r in rs ==> !Contains(Lower(r.fullName), IntToString(id))
    ensures forall r :: r in FilteredRequests(rs, IntToString(id)) <==> r in rs && r.id == id
  {
    InitialIdQuery(rs, id);
  }

  // ---------------------------------------------------------------------------
  // The pickup gate

  /** Ready for pickup on this page: back from either office, or finished. */
  predicate IsTrackReady(r: Request) {
    r.status == Returned || r.status == ReturnedInternational || r.status == ReturnedHrAdmin
  }

  /** What clicking the pickup button does: an alert naming the status, or the dialog
      opened on a prefilled recipient name. */
  datatype Gate = Reject(status: Status) | Open(prefill: string)

  /** `handleOpenSignModal`. */
  function ReceiptGate(r: Request): Gate {
    if !IsTrackReady(r) && !HasReceipt(r) then Reject(r.status)
    else Open(if r.receivingSign.Some? then r.receivingSign.value else "")
  }

  /** The gate refuses exactly the unsigned requests still at the HR desk or out at an office,
      and reports the request's status; otherwise the dialog shows the existing signature,
      or nothing when there is none. */
  lemma ReceiptGateSpec(r: Request)
    ensures ReceiptGate(r).Reject? <==>
              (r.status == AtHr || r.status == SentHrAdmin || r.status == SentInternational)
              && !HasReceipt(r)
    ensures ReceiptGate(r).Reject? ==> ReceiptGate(r).status == r.status
    ensures ReceiptGate(r).Open? && r.receivingSign.None? ==> ReceiptGate(r).prefill == ""
    ensures ReceiptGate(r).Open? && r.receivingSign.Some? ==>
              ReceiptGate(r).prefill == r.receivingSign.value
    ensures HasReceipt(r) ==> ReceiptGate(r).Open? && ReceiptGate(r).prefill != ""
  {
  }

  /** The three looks of the pickup button. */
  datatype ButtonLook = Received | ReadyToSign | Waiting

  function ButtonLookOf(r: Request): ButtonLook {
    if HasReceipt(r) then Received else if IsTrackReady(r) then ReadyToSign else Waiting
  }

  /** The button looks disabled exactly when the gate would refuse. */
  lemma ButtonAgreesWithGate(r: Request)
    ensures ButtonLookOf(r) == Waiting <==> ReceiptGate(r).Reject?
  {
  }

  /** The confirm guard: the trimmed recipient name, when it is not empty. */
  function ConfirmedName(name: string): Option<string> {
    var t := Trim(name);
    if t != "" then Some(t) else None
  }

  /** Confirming is refused exactly for a name of white space only; otherwise the name is
      passed on without its surrounding white space. */
  lemma ConfirmedNameSpec(name: string)
    ensures ConfirmedName(name).None? <==> forall i :: 0 <= i < |name| ==> IsSpace(name[i])
    ensures ConfirmedName(name).Some? ==>
              var t := ConfirmedName(name).value;
              t != "" && !IsSpace(t[0]) && !IsSpace(t[|t| - 1])
    ensures NoSpace(name) && name != "" ==> ConfirmedName(name) == Some(name)
  {
    TrimEmptyIff(name);
    var a, b := TrimIsSlice(name);
    if NoSpace(name) {
      TrimNoSpace(name);
    }
  }

  // ---------------------------------------------------------------------------
  // Progress bar

  /** `options.indexOf(s)`: -1 when absent. */
  function IndexOf(options: seq<Status>, s: Status): (i: int)
    ensures -1 <= i < |options|
    ensures i == -1 <==> s !in options
    ensures i >= 0 ==> options[i] == s && s !in options[..i]
  {
    if options == [] then -1
    else if options[0] == s then 0
    else
      var j := IndexOf(options[1..], s);
      if j == -1 then -1
      else
        assert options[..j + 1] == [options[0]] + options[1..][..j];
        j + 1
  }

  /** One flag per status in the order: lit when its position is at most the request's. */
  function Segments(options: seq<Status>, s: Status): seq<bool> {
    var p := IndexOf(options, s);
    seq(|options|, idx requires 0 <= idx < |options| => idx <= p)
  }

  /** Segment `idx` is lit exactly when the request's status is in the order but not among
      the `idx` statuses before it: a status outside the order lights nothing, the lit
      segments are a prefix of the bar, and the segment of the status itself is the last
      one lit. */
  lemma SegmentsSpec(options: seq<Status>, s: Status)
    ensures |Segments(options, s)| == |options|
    ensures forall idx :: 0 <= idx < |options| ==>
              (Segments(options, s)[idx] <==> s in options && s !in options[..idx])
    ensures s !in options ==> forall idx :: 0 <= idx < |options| ==> !Segments(options, s)[idx]
    ensures forall i, j :: 0 <= i <= j < |options| && Segments(options, s)[j] ==>
              Segments(options, s)[i]
    ensures forall idx :: 0 <= idx < |options| && Segments(options, s)[idx] && idx + 1 < |options| ==>
              (options[idx] == s <==> !Segments(options, s)[idx + 1])
  {
    forall idx | 0 <= idx < |options|
      ensures Segments(options, s)[idx] <==> s in options && s !in options[..idx]
    {
      SegmentAt(options, s, idx);
    }
  }

  lemma SegmentAt(options: seq<Status>, s: Status, idx: int)
    requires 0 <= idx < |options|
    ensures Segments(options, s)[idx] <==> s in options && s !in options[..idx]
  {
    var p := IndexOf(options, s);
    assert Segments(options, s)[idx] == (idx <= p);
    if idx <= p {
      assert s !in options[..p];
      assert options[..idx] == options[..p][..idx];
      assert s !in options[..idx];
    } else if p >= 0 {
      assert options[..idx][p] == s;
      assert s in options[..idx];
    }
  }

  // ---------------------------------------------------------------------------
  // The page's state

  /** The component's three pieces of state. */
  class Tracker {
    var searchQuery: string
    var signing: Option<Request>
    var recipientName: string

    constructor()
      ensures searchQuery == "" && signing == None && recipientName == ""
    {
      searchQuery := "";
      signing := None;
      recipientName := "";
    }

    /** The direct-link effect: a present, non-zero id becomes the query. */
    method ApplyInitialId(initialId: Option<int>)
      modifies this
      ensures initialId.Some? && initialId.value != 0 ==> searchQuery == IntToString(initialId.value)
      ensures !(initialId.Some? && initialId.value != 0) ==> searchQuery == old(searchQuery)
      ensures signing == old(signing) && recipientName == old(recipientName)
    {
      if initialId.Some? && initialId.value != 0 {
        searchQuery := IntToString(initialId.value);
      }
    }

    /** Typing in the search box. */
    method SetQuery(q: string)
      modifies this
      ensures searchQuery == q
      ensures signing == old(signing) && recipientName == old(recipientName)
    {
      searchQuery := q;
    }

    /** The results shown for the current query. */
    function Results(rs: seq<Request>): seq<Request>
      reads this
    {
      FilteredRequests(rs, searchQuery)
    }

    /** The pickup button: either an alert with the request's status and nothing changed, or
        the dialog opened on the request with the prefilled name. */
    method OpenSignModal(r: Request) returns (alert: Option<Status>)
      modifies this
      ensures ReceiptGate(r).Reject? ==>
                alert == Some(r.status) && signing == old(signing) && recipientName == old(recipientName)
      ensures ReceiptGate(r).Open? ==>
                alert == None && signing == Some(r) && recipientName == ReceiptGate(r).prefill
      ensures searchQuery == old(searchQuery)
    {
      var isReady := r.status == Returned || r.status == ReturnedInternational
        || r.status == ReturnedHrAdmin;
      if !isReady && !HasReceipt(r) {
        return Some(r.status);
      }
      signing := Some(r);
      recipientName := if r.receivingSign.Some? then r.receivingSign.value else "";
      alert := None;
    }

    /** Typing the recipient's name. */
    method SetRecipientName(name: string)
      modifies this
      ensures recipientName == name
      ensures signing == old(signing) && searchQuery == old(searchQuery)
    {
      recipientName := name;
    }

    /** The confirm button: with an open dialog and a name that is not blank, the receipt
        update for the request's id and the trimmed name, and the dialog closed; otherwise
        no update and nothing changed. */
    method Confirm() returns (update: Option<(int, string)>)
      modifies this
      ensures old(signing).Some? && ConfirmedName(old(recipientName)).Some? ==>
                && update == Some((old(signing).value.id, ConfirmedName(old(recipientName)).value))
                && signing == None
      ensures !(old(signing).Some? && ConfirmedName(old(recipientName)).Some?) ==>
                update == None && signing == old(signing)
      ensures recipientName == old(recipientName) && searchQuery == old(searchQuery)
    {
      update := None;
      if signing.Some? {
        var t := Trim(recipientName);
        if t != "" {
          update := Some((signing.value.id, t));
          signing := None;
        }
      }
    }

    /** The cancel button closes the dialog and keeps the typed name. */
    method Cancel()
      modifies this
      ensures signing == None
      ensures recipientName == old(recipientName) && searchQuery == old(searchQuery)
    {
      signing := None;
    }
  }
}
