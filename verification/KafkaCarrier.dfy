/**
 The trace context on Kafka record headers: appended on the way out, last one
 wins on the way in, and every hit overwrites the one buffer the reader lends.
 */
module KafkaCarrier {
  import opened Text

  datatype Header = Header(key: string, value: string)

  /** The record headers of librdkafka, as far as the carriers see them. */
  class Headers {
    var list: seq<Header>

    constructor ()
      ensures list == []
    {
      list := [];
    }
  }

  /** RdKafka::Headers::get_last. */
  function GetLast(list: seq<Header>, key: string): Option<string> {
    if list == [] then None
    else if list[|list| - 1].key == key then Some(list[|list| - 1].value)
    else GetLast(list[..|list| - 1], key)
  }

  /** The last entry with exactly this key, if there is one. */
  lemma {:induction false} GetLastIs(list: seq<Header>, key: string)
    ensures GetLast(list, key) == None <==> forall i | 0 <= i < |list| :: list[i].key != key
    ensures forall i | 0 <= i < |list| && list[i].key == key && (forall j | i < j < |list| :: list[j].key != key) ::
              GetLast(list, key) == Some(list[i].value)
  {
    if list != [] {
      var n := |list| - 1;
      GetLastIs(list[..n], key);
      assert forall i | 0 <= i < n :: list[..n][i] == list[i];
    }
  }

  /** A borrowed view of the reader's buffer: what it showed, and since which write. */
  datatype View = View(text: string, write: nat)

  class KafkaTraceContextReader {
    const headers: Headers?
    var valueBuffer: string
    /** How often the buffer has been overwritten. */
    var writes: nat

    constructor (headers: Headers?)
      ensures this.headers == headers && valueBuffer == "" && writes == 0
    {
      this.headers := headers;
      valueBuffer := "";
      writes := 0;
    }

    /** The view still shows what it showed when it was returned. */
    predicate Intact(view: View)
      reads this
    {
      view.write == writes && view.text == valueBuffer
    }

    /**
     A hit returns the last value of the key, as far as its first NUL, since the
     value is read as a C string, and invalidates every view lent before it; a
     miss leaves them all as they were.
     */
    method Get(key: string) returns (r: Option<View>)
      modifies this
      ensures r.Some? <==> headers != null && GetLast(headers.list, key).Some?
      ensures r.Some? ==> r.value.text == CStr(GetLast(headers.list, key).value) && Intact(r.value)
      ensures forall view: View | old(Intact(view)) :: Intact(view) <==> r.None?
      ensures writes == old(writes) + if r.Some? then 1 else 0
      ensures r.None? ==> valueBuffer == old(valueBuffer)
    {
      if headers == null {
        return None;
      }
      var result := GetLast(headers.list, key);
      if result.Some? {
        valueBuffer := CStr(result.value);
        writes := writes + 1;
        return Some(View(valueBuffer, writes));
      }
      return None;
    }
  }

  class KafkaTraceContextWriter {
    const headers: Headers?

    constructor (headers: Headers?)
      ensures this.headers == headers
    {
      this.headers := headers;
    }

    method Set(key: string, value: string)
      modifies if headers == null then {} else {headers}
      ensures headers != null ==> headers.list == old(headers.list) + [Header(key, value)]
    {
      if headers == null {
        return;
      }
      headers.list := headers.list + [Header(key, value)];
    }
  }

  // ------------------------------------------------------------------
  // Any sequence of sets and gets
  // ------------------------------------------------------------------

  /** The map a sequence of sets builds up. */
  function AsMap(list: seq<Header>): map<string, string> {
    if list == [] then map[]
    else AsMap(list[..|list| - 1])[list[|list| - 1].key := list[|list| - 1].value]
  }

  /** Reading the headers is reading that map, case included: the last set wins. */
  lemma {:induction false} HeadersRefineMap(list: seq<Header>, key: string)
    ensures GetLast(list, key) == if key in AsMap(list) then Some(AsMap(list)[key]) else None
  {
    if list != [] {
      HeadersRefineMap(list[..|list| - 1], key);
    }
  }

  /**
   Of a sequence of gets, each returns what its key was last set to, up to the
   first NUL, and a view one of them lent is still intact at the end exactly when all later ones missed.
   */
  method GetAll(reader: KafkaTraceContextReader, keys: seq<string>) returns (views: seq<Option<View>>)
    modifies reader
    ensures |views| == |keys|
    ensures forall i | 0 <= i < |keys| :: Answers(reader.headers, keys[i], views[i])
    ensures forall i | 0 <= i < |keys| && views[i].Some? ::
              reader.Intact(views[i].value) <==> forall k | i < k < |keys| :: views[k].None?
  {
    views := [];
    for n := 0 to |keys|
      invariant |views| == n
      invariant forall i | 0 <= i < n :: Answers(reader.headers, keys[i], views[i])
      invariant forall i | 0 <= i < n && views[i].Some? :: views[i].value.write <= reader.writes
      invariant forall i | 0 <= i < n && views[i].Some? ::
                  reader.Intact(views[i].value) <==> forall k | i < k < n :: views[k].None?
    {
      var view := reader.Get(keys[n]);
      views := views + [view];
    }
  }

  /** The view shows what the key was last set to, if it was, up to the first NUL. */
  predicate Answers(headers: Headers?, key: string, view: Option<View>)
    reads headers
  {
    if headers == null || GetLast(headers.list, key).None? then view.None?
    else view.Some? && view.value.text == CStr(GetLast(headers.list, key).value)
  }

  /** A value comes back as it was set if and only if it holds no NUL. */
  lemma ValueRoundTripIff(before: seq<Header>, key: string, value: string, view: Option<View>, headers: Headers)
    requires headers.list == before + [Header(key, value)] && Answers(headers, key, view)
    ensures view.Some? && (view.value.text == value <==> NUL !in value)
  {
    assert NUL !in CStr(value);
  }
}
