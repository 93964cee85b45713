/**
 What the gRPC interceptors share: the current span of a thread, and the trace
 context on gRPC metadata, with a writer that folds keys to lower case and a
 reader that takes the first entry whose key matches up to case.
 */
module GrpcContext {
  import opened Text

  /** One thread's `g_current_span`; spans are numbered by the agent's ledger. */
  class CurrentSpan {
    var span: Option<nat>

    constructor ()
      ensures span == None
    {
      span := None;
    }
  }

  datatype Entry = Entry(key: string, value: string)

  /** Client and server contexts, as far as the carriers see them. */
  class ClientContext {
    var metadata: seq<Entry>

    constructor ()
      ensures metadata == []
    {
      metadata := [];
    }
  }

  class ServerContext {
    const metadata: seq<Entry>
    const peer: string

    constructor (metadata: seq<Entry>, peer: string)
      ensures this.metadata == metadata && this.peer == peer
    {
      this.metadata := metadata;
      this.peer := peer;
    }
  }

  /** The values stored under a folded key, in metadata order. */
  function ValuesUnder(metadata: seq<Entry>, folded: string): seq<string> {
    if metadata == [] then []
    else ValueIfUnder(metadata[0], folded) + ValuesUnder(metadata[1..], folded)
  }

  function ValueIfUnder(entry: Entry, folded: string): seq<string> {
    if ToLower(entry.key) == folded then [entry.value] else []
  }

  /** What `Set` leaves in the metadata. */
  function WithSet(metadata: seq<Entry>, key: string, value: string): seq<Entry> {
    metadata + [Entry(ToLower(key), value)]
  }

  /** The first value under any casing of `key`. */
  function Lookup(metadata: seq<Entry>, key: string): Option<string> {
    var values := ValuesUnder(metadata, ToLower(key));
    if values == [] then None else Some(values[0])
  }

  class GrpcClientTraceContextWriter {
    const context: ClientContext?

    constructor (context: ClientContext?)
      ensures this.context == context
    {
      this.context := context;
    }

    method Set(key: string, value: string)
      modifies if context == null then {} else {context}
      ensures context != null ==> context.metadata == WithSet(old(context.metadata), key, value)
    {
      if context == null {
        return;
      }
      context.metadata := context.metadata + [Entry(ToLower(key), value)];
    }
  }

  class GrpcServerTraceContextReader {
    const context: ServerContext?

    constructor (context: ServerContext?)
      ensures this.context == context
    {
      this.context := context;
    }

    method Get(key: string) returns (r: Option<string>)
      ensures r == if context == null then None else Lookup(context.metadata, key)
    {
      if context == null {
        return None;
      }
      var lowerKey := ToLower(key);
      var metadata := context.metadata;
      for i := 0 to |metadata|
        invariant ValuesUnder(metadata, lowerKey) == ValuesUnder(metadata[i..], lowerKey)
      {
        if ToLower(metadata[i].key) == lowerKey {
          return Some(metadata[i].value);
        }
      }
      return None;
    }
  }

  /** No entry in front of `i` has this key, up to case. */
  predicate NoneBefore(metadata: seq<Entry>, key: string, i: nat)
    requires i <= |metadata|
  {
    forall j | 0 <= j < i :: !FoldEq(metadata[j].key, key)
  }

  /** On any metadata, the lookup finds the first entry whose key is equal up to case, if there is one. */
  lemma {:induction false} LookupIsFirstEntry(metadata: seq<Entry>, key: string)
    ensures Lookup(metadata, key) == None <==> NoneBefore(metadata, key, |metadata|)
    ensures forall i | 0 <= i < |metadata| && FoldEq(metadata[i].key, key) && NoneBefore(metadata, key, i) ::
              Lookup(metadata, key) == Some(metadata[i].value)
  {
    if metadata != [] {
      var rest := metadata[1..];
      LookupIsFirstEntry(rest, key);
      assert forall j | 0 <= j < |rest| :: rest[j] == metadata[j + 1];
      forall i | 0 < i < |metadata| && FoldEq(metadata[i].key, key) && NoneBefore(metadata, key, i)
        ensures Lookup(metadata, key) == Some(metadata[i].value)
      {
        assert rest[i - 1] == metadata[i] && NoneBefore(rest, key, i - 1);
      }
      if NoneBefore(metadata, key, |metadata|) {
        assert NoneBefore(rest, key, |rest|);
      } else if NoneBefore(rest, key, |rest|) {
        assert FoldEq(metadata[0].key, key);
      }
    }
  }

  // ------------------------------------------------------------------
  // Any sequence of sets
  // ------------------------------------------------------------------

  /** The metadata after setting `keys[i]` to `values[i]`, in order. */
  function SetAll(metadata: seq<Entry>, keys: seq<string>, values: seq<string>): seq<Entry>
    requires |keys| == |values|
    decreases |keys|
  {
    if keys == [] then metadata
    else SetAll(WithSet(metadata, keys[0], values[0]), keys[1..], values[1..])
  }

  /** An entry as a set makes it: the value as it is, the key up to case and without capitals. */
  predicate IsSetOf(e: Entry, key: string, value: string) {
    && e.value == value && FoldEq(e.key, key)
    && forall k | 0 <= k < |e.key| :: !(65 <= e.key[k] as int <= 90)
  }

  /** A sequence of sets adds one such entry each, in order. */
  lemma {:induction false} SetAllAppends(metadata: seq<Entry>, keys: seq<string>, values: seq<string>)
    returns (added: seq<Entry>)
    requires |keys| == |values|
    ensures SetAll(metadata, keys, values) == metadata + added && |added| == |keys|
    ensures forall i | 0 <= i < |keys| :: IsSetOf(added[i], keys[i], values[i])
    decreases |keys|
  {
    if keys == [] {
      added := [];
    } else {
      var first := Entry(ToLower(keys[0]), values[0]);
      var rest := SetAllAppends(WithSet(metadata, keys[0], values[0]), keys[1..], values[1..]);
      ToLowerIdempotent(keys[0]);
      FoldedIsLower(keys[0]);
      added := [first] + rest;
      SeqAssociates(metadata, [first], rest);
    }
  }

  /** No two keys are equal up to case. */
  ghost predicate FoldDistinct(keys: seq<string>) {
    forall i, j | 0 <= i < j < |keys| :: ToLower(keys[i]) != ToLower(keys[j])
  }

  /**
   The transport hands over, for every trace key, the values that were sent
   under it, in order; other metadata may be added, dropped or reordered.
   */
  ghost predicate Delivers(sent: seq<Entry>, received: seq<Entry>, keys: seq<string>) {
    forall k | k in keys :: ValuesUnder(received, ToLower(k)) == ValuesUnder(sent, ToLower(k))
  }

  /** The values set under one folded key, in order. */
  function ValuesFor(keys: seq<string>, values: seq<string>, folded: string): seq<string>
    requires |keys| == |values|
  {
    if keys == [] then []
    else (if ToLower(keys[0]) == folded then [values[0]] else [])
         + ValuesFor(keys[1..], values[1..], folded)
  }

  lemma ValuesUnderFirst(e: Entry, rest: seq<Entry>, folded: string)
    ensures ValuesUnder([e] + rest, folded) == ValueIfUnder(e, folded) + ValuesUnder(rest, folded)
  {
    assert ([e] + rest)[1..] == rest;
  }

  lemma {:induction false} ValuesUnderAppend(a: seq<Entry>, e: Entry, folded: string)
    ensures ValuesUnder(a + [e], folded) == ValuesUnder(a, folded) + ValueIfUnder(e, folded)
  {
    if a == [] {
      ValuesUnderFirst(e, [], folded);
      assert [e] + [] == a + [e];
    } else {
      var first, rest := a[0], a[1..];
      ValuesUnderAppend(rest, e, folded);
      ValuesUnderFirst(first, rest + [e], folded);
      SeqAssociates([first], rest, [e]);
      SeqAssociates(ValueIfUnder(first, folded), ValuesUnder(rest, folded), ValueIfUnder(e, folded));
      assert [first] + rest == a;
    }
  }

  lemma {:induction false} SetAllValues(metadata: seq<Entry>, keys: seq<string>, values: seq<string>, folded: string)
    requires |keys| == |values|
    ensures ValuesUnder(SetAll(metadata, keys, values), folded)
            == ValuesUnder(metadata, folded) + ValuesFor(keys, values, folded)
    decreases |keys|
  {
    if keys != [] {
      var added := Entry(ToLower(keys[0]), values[0]);
      SetAllValues(metadata + [added], keys[1..], values[1..], folded);
      ValuesUnderAppend(metadata, added, folded);
      ToLowerIdempotent(keys[0]);
    }
  }

  /**
   Lookup after any sequence of sets is first-set-wins, whatever the casing of
   the key that is looked up.
   */
  lemma {:induction false} LookupFindsFirstSet(keys: seq<string>, values: seq<string>, key: string)
    requires |keys| == |values|
    ensures Lookup(SetAll([], keys, values), key) == None
            <==> forall i | 0 <= i < |keys| :: !FoldEq(keys[i], key)
    ensures forall i | 0 <= i < |keys| && FoldEq(keys[i], key) ::
              (forall j | 0 <= j < i :: !FoldEq(keys[j], key))
              ==> Lookup(SetAll([], keys, values), key) == Some(values[i])
  {
    SetAllValues([], keys, values, ToLower(key));
    FirstValueFor(keys, values, key);
  }

  lemma {:induction false} FirstValueFor(keys: seq<string>, values: seq<string>, key: string)
    requires |keys| == |values|
    ensures ValuesFor(keys, values, ToLower(key)) == []
            <==> forall i | 0 <= i < |keys| :: !FoldEq(keys[i], key)
    ensures forall i | 0 <= i < |keys| && FoldEq(keys[i], key) ::
              (forall j | 0 <= j < i :: !FoldEq(keys[j], key))
              ==> ValuesFor(keys, values, ToLower(key)) != []
                  && ValuesFor(keys, values, ToLower(key))[0] == values[i]
  {
    if keys != [] {
      FirstValueFor(keys[1..], values[1..], key);
      forall i | 0 <= i < |keys| && FoldEq(keys[i], key) && forall j | 0 <= j < i :: !FoldEq(keys[j], key)
        ensures ValuesFor(keys, values, ToLower(key)) != []
        ensures ValuesFor(keys, values, ToLower(key))[0] == values[i]
      {
        if i > 0 {
          assert keys[1..][i - 1] == keys[i];
          assert forall j | 0 <= j < i - 1 :: keys[1..][j] == keys[j + 1];
        }
      }
    }
  }

  /**
   What the writer sets on one side, any reader on the other side of the
   transport gets back under any casing of the key, for keys distinct up to case.
   */
  lemma ContextSurvivesTransport(keys: seq<string>, values: seq<string>, received: seq<Entry>, i: nat, spelling: string)
    requires |keys| == |values| && i < |keys| && FoldDistinct(keys)
    requires Delivers(SetAll([], keys, values), received, keys)
    requires FoldEq(spelling, keys[i])
    ensures Lookup(received, spelling) == Some(values[i])
  {
    var sent := SetAll([], keys, values);
    assert keys[i] in keys;
    assert Lookup(received, spelling) == Lookup(sent, spelling);
    LookupFindsFirstSet(keys, values, spelling);
  }

  /** Two keys that differ only in case are one key: the second set is never seen. */
  lemma SecondCasingIsLost(key: string, other: string, first: string, second: string)
    requires FoldEq(key, other)
    ensures Lookup(SetAll([], [key, other], [first, second]), other) == Some(first)
  {
    LookupFindsFirstSet([key, other], [first, second], other);
  }
}
