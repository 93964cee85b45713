/**
 Looking an incoming header up in nginx's chunked list: a chain of parts, each
 with an array of headers.
 */
module NginxHeaders {
  import opened Text

  datatype Header = Header(key: string, value: string)

  /** ngx_list_part_t; `elts` are the elements in use, so an index beyond them is out of range. */
  class ListPart {
    var elts: seq<Header>
    var next: ListPart?

    constructor (elts: seq<Header>, next: ListPart?)
      ensures this.elts == elts && this.next == next
    {
      this.elts := elts;
      this.next := next;
    }
  }

  /** `parts` is the whole chain, from its first part to its last. */
  ghost predicate IsChain(parts: seq<ListPart>)
    reads parts
  {
    && parts != []
    && forall k | 0 <= k < |parts| ::
         parts[k].next == if k + 1 < |parts| then parts[k + 1] else null
  }

  ghost function Lists(parts: seq<ListPart>): (r: seq<seq<Header>>)
    reads parts
    ensures |r| == |parts|
    ensures forall k | 0 <= k < |parts| :: r[k] == parts[k].elts
  {
    seq(|parts|, k requires 0 <= k < |parts| reads parts => parts[k].elts)
  }

  /** All headers, in list order. */
  function Flat(lists: seq<seq<Header>>): seq<Header> {
    if lists == [] then [] else Flat(lists[..|lists| - 1]) + lists[|lists| - 1]
  }

  predicate Matches(h: Header, key: string) {
    FoldEq(h.key, key)
  }

  /** The value of the first header with this name, whatever its case. */
  function FirstMatch(headers: seq<Header>, key: string): Option<string> {
    if headers == [] then None
    else
      var before := FirstMatch(headers[..|headers| - 1], key);
      if before.Some? then before
      else if Matches(headers[|headers| - 1], key) then Some(headers[|headers| - 1].value)
      else None
  }

  /** The first header whose name is equal up to case, if there is one. */
  lemma {:induction false} FirstMatchIs(headers: seq<Header>, key: string)
    ensures FirstMatch(headers, key) == None <==> forall i | 0 <= i < |headers| :: !FoldEq(headers[i].key, key)
    ensures forall i | 0 <= i < |headers| && FoldEq(headers[i].key, key) && (forall j | 0 <= j < i :: !FoldEq(headers[j].key, key)) ::
              FirstMatch(headers, key) == Some(headers[i].value)
  {
    if headers != [] {
      var n := |headers| - 1;
      FirstMatchIs(headers[..n], key);
      assert forall i | 0 <= i < n :: headers[..n][i] == headers[i];
    }
  }

  /** The flat list is the parts one after the other: part `k` follows the parts in front of it. */
  lemma {:induction false} FlatIs(lists: seq<seq<Header>>, k: nat)
    requires k < |lists|
    ensures Flat(lists[..k]) + lists[k] <= Flat(lists)
    ensures Flat([]) == []
    ensures k == |lists| - 1 ==> Flat(lists[..k]) + lists[k] == Flat(lists)
  {
    var n := |lists| - 1;
    if k < n {
      FlatIs(lists[..n], k);
      assert lists[..n][..k] == lists[..k];
    }
  }

  lemma {:induction false} FirstMatchConcat(a: seq<Header>, b: seq<Header>, key: string)
    ensures FirstMatch(a + b, key)
            == if FirstMatch(a, key).Some? then FirstMatch(a, key) else FirstMatch(b, key)
  {
    if b == [] {
      assert a + b == a;
    } else {
      FirstMatchConcat(a, b[..|b| - 1], key);
      assert (a + b)[..|a + b| - 1] == a + b[..|b| - 1];
    }
  }

  lemma FlatAppend(lists: seq<seq<Header>>, list: seq<Header>)
    ensures Flat(lists + [list]) == Flat(lists) + list
  {
    assert (lists + [list])[..|lists|] == lists;
  }

  /** A match in the first parts is the match in the whole list. */
  lemma {:induction false} EarlyMatchDecides(lists: seq<seq<Header>>, k: nat, key: string)
    requires k <= |lists| && FirstMatch(Flat(lists[..k]), key).Some?
    ensures FirstMatch(Flat(lists), key) == FirstMatch(Flat(lists[..k]), key)
    decreases |lists| - k
  {
    if k == |lists| {
      assert lists[..k] == lists;
    } else {
      assert lists[..k + 1] == lists[..k] + [lists[k]];
      FlatAppend(lists[..k], lists[k]);
      FirstMatchConcat(Flat(lists[..k]), lists[k], key);
      EarlyMatchDecides(lists, k + 1, key);
    }
  }

  /**
   Every empty part behind the first is preceded by a match. nginx's own lists
   meet this trivially: a part is only added to take an element.
   */
  ghost predicate NoEmptyPartBeforeMatch(lists: seq<seq<Header>>, key: string) {
    forall k | 0 < k < |lists| && lists[k] == [] :: FirstMatch(Flat(lists[..k]), key).Some?
  }

  lemma NginxListsQualify(lists: seq<seq<Header>>, key: string)
    requires forall k | 0 < k < |lists| :: lists[k] != []
    ensures NoEmptyPartBeforeMatch(lists, key)
  {
  }

  /** The headers in front of element `i` of part `k`. */
  function Seen(lists: seq<seq<Header>>, k: nat, i: nat): seq<Header>
    requires k < |lists| && i <= |lists[k]|
  {
    Flat(lists[..k]) + lists[k][..i]
  }

  /** The end of one part is the beginning of the next, or the end of the list. */
  lemma SeenWholePart(lists: seq<seq<Header>>, k: nat)
    requires k < |lists|
    ensures Seen(lists, k, |lists[k]|) == Flat(lists[..k + 1])
    ensures k + 1 < |lists| ==> Seen(lists, k + 1, 0) == Flat(lists[..k + 1])
    ensures k + 1 == |lists| ==> Flat(lists[..k + 1]) == Flat(lists)
  {
    assert lists[..k + 1] == lists[..k] + [lists[k]];
    FlatAppend(lists[..k], lists[k]);
    if k + 1 == |lists| {
      assert lists[..k + 1] == lists;
    }
  }

  /** One more element seen, and whether it is the match. */
  lemma SeenOneMore(lists: seq<seq<Header>>, k: nat, i: nat, key: string)
    requires k < |lists| && i < |lists[k]| && FirstMatch(Seen(lists, k, i), key) == None
    ensures FirstMatch(Seen(lists, k, i + 1), key)
            == if Matches(lists[k][i], key) then Some(lists[k][i].value) else None
    ensures Matches(lists[k][i], key) ==> FirstMatch(Flat(lists), key) == Some(lists[k][i].value)
  {
    var e := lists[k][i];
    FirstMatchConcat(Seen(lists, k, i), [e], key);
    assert Seen(lists, k, i) + [e] == Seen(lists, k, i + 1);
    assert [e][..0] == [];
    if Matches(e, key) {
      MatchInPart(lists, k, i, key);
    }
  }

  lemma NextOf(parts: seq<ListPart>, k: nat)
    requires IsChain(parts) && k < |parts|
    ensures parts[k].next == if k + 1 < |parts| then parts[k + 1] else null
  {
  }

  /** The search returns the first match of the flat list, reading nothing out of range. */
  method HeaderGet(head: ListPart, key: string, ghost parts: seq<ListPart>) returns (r: Option<string>)
    requires IsChain(parts) && parts[0] == head
    requires NoEmptyPartBeforeMatch(Lists(parts), key)
    ensures r == FirstMatch(Flat(Lists(parts)), key)
  {
    var part := head;
    var h := part.elts;
    var i := 0;
    ghost var lists := Lists(parts);
    ghost var k := 0;
    while true
      invariant 0 <= k < |parts| && part == parts[k] && h == part.elts
      invariant 0 <= i <= |h|
      invariant FirstMatch(Seen(lists, k, i), key) == None
      decreases |parts| - k, |h| - i
    {
      if i >= |h| {
        SeenWholePart(lists, k);
        assert part.next == if k + 1 < |parts| then parts[k + 1] else null by {
          NextOf(parts, k);
        }
        if part.next == null {
          return None;
        }
        part := part.next;
        h := part.elts;
        i := 0;
        k := k + 1;
        assert lists[k] != [];
      }
      SeenOneMore(lists, k, i, key);
      if |h[i].key| == |key| && ToLower(h[i].key) == ToLower(key) {
        return Some(h[i].value);
      }
      i := i + 1;
    }
  }

  /** A match found inside part `k` is the match in the whole list. */
  lemma MatchInPart(lists: seq<seq<Header>>, k: nat, i: nat, key: string)
    requires k < |lists| && i < |lists[k]|
    requires FirstMatch(Seen(lists, k, i + 1), key).Some?
    ensures FirstMatch(Flat(lists), key) == FirstMatch(Seen(lists, k, i + 1), key)
  {
    var h := lists[k];
    var seen := Seen(lists, k, i + 1);
    FirstMatchConcat(seen, h[i + 1..], key);
    assert seen + h[i + 1..] == Flat(lists[..k]) + h;
    assert lists[..k + 1] == lists[..k] + [h];
    FlatAppend(lists[..k], h);
    EarlyMatchDecides(lists, k + 1, key);
  }

  // ------------------------------------------------------------------
  // When the loop does read out of range
  // ------------------------------------------------------------------

  datatype Search = Found(value: string) | Missing | OutOfRange

  /** The loop as it is written, on any list: it reads the first element of a part it moves to. */
  function Loop(lists: seq<seq<Header>>, k: nat, i: nat, key: string): Search
    requires k < |lists| && i <= |lists[k]|
    decreases |lists| - k, |lists[k]| - i
  {
    if i == |lists[k]| then
      if k + 1 == |lists| then Missing
      else if lists[k + 1] == [] then OutOfRange
      else if Matches(lists[k + 1][0], key) then Found(lists[k + 1][0].value)
      else Loop(lists, k + 1, 1, key)
    else if Matches(lists[k][i], key) then Found(lists[k][i].value)
    else Loop(lists, k, i + 1, key)
  }

  /**
   The loop reads out of range exactly on the lists that `HeaderGet` shuts out,
   and is the flat search on all others.
   */
  lemma {:induction false} LoopIsFlatSearch(lists: seq<seq<Header>>, k: nat, i: nat, key: string)
    requires k < |lists| && i <= |lists[k]|
    requires FirstMatch(Seen(lists, k, i), key) == None
    requires forall j | 0 < j <= k :: lists[j] != []
    ensures Loop(lists, k, i, key) == OutOfRange <==> !NoEmptyPartBeforeMatch(lists, key)
    ensures Loop(lists, k, i, key) != OutOfRange ==>
              match FirstMatch(Flat(lists), key)
              case Some(value) => Loop(lists, k, i, key) == Found(value)
              case None => Loop(lists, k, i, key) == Missing
    decreases |lists| - k, |lists[k]| - i
  {
    if i == |lists[k]| {
      SeenWholePart(lists, k);
      if k + 1 < |lists| && lists[k + 1] != [] {
        LoopElement(lists, k + 1, 0, key);
      }
    } else {
      LoopElement(lists, k, i, key);
    }
  }

  /** One element of the loop: it matches, or the search goes on behind it. */
  lemma {:induction false} LoopElement(lists: seq<seq<Header>>, k: nat, i: nat, key: string)
    requires k < |lists| && i < |lists[k]|
    requires FirstMatch(Seen(lists, k, i), key) == None
    requires forall j | 0 < j <= k :: lists[j] != []
    ensures Matches(lists[k][i], key) ==>
              NoEmptyPartBeforeMatch(lists, key) && FirstMatch(Flat(lists), key) == Some(lists[k][i].value)
    ensures !Matches(lists[k][i], key) ==>
              && (Loop(lists, k, i + 1, key) == OutOfRange <==> !NoEmptyPartBeforeMatch(lists, key))
              && (Loop(lists, k, i + 1, key) != OutOfRange ==>
                    match FirstMatch(Flat(lists), key)
                    case Some(value) => Loop(lists, k, i + 1, key) == Found(value)
                    case None => Loop(lists, k, i + 1, key) == Missing)
    decreases |lists| - k, |lists[k]| - i, 0
  {
    SeenOneMore(lists, k, i, key);
    if Matches(lists[k][i], key) {
      forall j | 0 < j < |lists| && lists[j] == [] ensures FirstMatch(Flat(lists[..j]), key).Some? {
        assert lists[..j][..k] == lists[..k];
        MatchInPart(lists[..j], k, i, key);
      }
    } else {
      LoopIsFlatSearch(lists, k, i + 1, key);
    }
  }
}
