/**
 The trace context on a libcurl header list: a linked list of "Key: value" lines
 that the writer extends in place and the reader parses back.
 */
module CurlHeaders {
  import opened Text

  // ------------------------------------------------------------------
  // Lines
  // ------------------------------------------------------------------

  datatype Field = Field(name: string, value: string)

  /** The value without its leading spaces. */
  function TrimLeft(value: string): (r: string)
    ensures |r| <= |value|
    ensures r != "" ==> r[0] != ' '
  {
    if value != "" && value[0] == ' ' then TrimLeft(value[1..]) else value
  }

  /** Trimming takes spaces off the front, all of them, and nothing else. */
  lemma {:induction false} TrimLeftDropsSpaces(value: string)
    ensures var n := |value| - |TrimLeft(value)|;
            TrimLeft(value) == value[n..] && (forall i | 0 <= i < n :: value[i] == ' ')
            && (n < |value| ==> value[n] != ' ')
  {
    if value != "" && value[0] == ' ' {
      TrimLeftDropsSpaces(value[1..]);
      assert value == [' '] + value[1..];
    }
  }

  /** The line that `Set` prints. */
  function PrintLine(key: string, value: string): string {
    key + ": " + value
  }

  /** A header line as the reader splits it; None for a line without a colon. */
  function ParseLine(line: string): Option<Field> {
    match Find(line, ":", 0)
    case Some(sep) => Some(Field(line[..sep], TrimLeft(line[sep + 1..])))
    case None => None
  }

  /**
   On any line: the name is what stands in front of the first colon, the value what
   stands behind it without its leading spaces; a line without a colon has neither.
   */
  lemma ParseLineIs(line: string)
    ensures ParseLine(line) == None <==> ':' !in line
    ensures ParseLine(line).Some? ==>
              var name := ParseLine(line).value.name;
              && ':' !in name && |name| < |line| && line[..|name|] == name && line[|name|] == ':'
              && ParseLine(line).value.value == TrimLeft(line[|name| + 1..])
  {
    ParsedNameIsColonFree(line);
    var sep := Find(line, ":", 0);
    if sep.Some? {
      CharOccurs(line, ':', sep.value);
    } else {
      forall i | 0 <= i < |line| ensures line[i] != ':' {
        CharOccurs(line, ':', i);
      }
    }
  }

  /** What a set writes, if there is no NUL in it: the key, a colon, a space and the value. */
  lemma SetWritesTheHeader(key: string, value: string)
    requires NUL !in key && NUL !in value
    ensures CStr(PrintLine(key, value)) == key + ": " + value
  {
    StoredLine(key, value);
  }

  lemma {:induction false} TrimLeftOfSpace(value: string)
    ensures TrimLeft(" " + value) == TrimLeft(value)
  {
    assert (" " + value)[1..] == value;
  }

  /** A colon-free key is read back as it is, and its value without leading spaces. */
  lemma ParseOfColonFreeKey(key: string, value: string)
    requires ':' !in key
    ensures ParseLine(PrintLine(key, value)) == Some(Field(key, TrimLeft(value)))
  {
    var line := PrintLine(key, value);
    assert line[0..|key|] == key;
    FindCharAt(line, ':', 0, |key|);
    assert line[..|key|] == key;
    assert line[|key| + 1..] == " " + value;
    TrimLeftOfSpace(value);
  }

  /** The name read from a line never holds a colon. */
  lemma ParsedNameIsColonFree(line: string)
    ensures ParseLine(line).Some? ==> ':' !in ParseLine(line).value.name
  {
    if ParseLine(line).Some? {
      var name := ParseLine(line).value.name;
      forall i | 0 <= i < |name| ensures name[i] != ':' {
        CharOccurs(line, ':', i);
      }
    }
  }

  lemma CStrOfConcat(a: string, b: string)
    ensures CStr(a + b) == if NUL in a then CStr(a) else a + CStr(b)
  {
    if NUL in a {
      assert CStr(a) != a;
      CStrIs(a + b, |CStr(a)|);
    } else {
      CStrIs(a + b, |a| + |CStr(b)|);
    }
  }

  /** What is stored of a line: `c_str()` ends at the first NUL. */
  lemma StoredLine(key: string, value: string)
    ensures CStr(PrintLine(key, value))
            == if NUL in key then CStr(key) else PrintLine(key, CStr(value))
  {
    CStrOfConcat(key + ": ", value);
    CStrOfConcat(key, ": ");
  }

  /** What comes back of one `Set`: nothing, if the key is cut short before its colon. */
  function Survivor(key: string, value: string): seq<Field> {
    if NUL in key then [] else [Field(key, TrimLeft(CStr(value)))]
  }

  function EntryOf(line: string): seq<Field> {
    match ParseLine(line) case Some(entry) => [entry] case None => []
  }

  lemma SetSurvives(key: string, value: string)
    requires ':' !in key
    ensures EntryOf(CStr(PrintLine(key, value))) == Survivor(key, value)
  {
    StoredLine(key, value);
    if NUL in key {
      FindCharNone(CStr(key), ':', 0);
    } else {
      ParseOfColonFreeKey(key, CStr(value));
    }
  }

  /**
   A header is read back exactly as it was set if and only if its key holds no
   colon, neither part holds a NUL, and the value does not begin with a space.
   */
  lemma LineRoundTripIff(key: string, value: string)
    ensures ParseLine(CStr(PrintLine(key, value))) == Some(Field(key, value))
            <==> ':' !in key && NUL !in key && NUL !in value && (value == "" || value[0] != ' ')
  {
    ParsedNameIsColonFree(CStr(PrintLine(key, value)));
    if ':' !in key {
      SetSurvives(key, value);
      if NUL !in key {
        assert TrimLeft(CStr(value)) == value ==> CStr(value) == value;
      }
    }
  }

  // ------------------------------------------------------------------
  // The value's whitespace
  // ------------------------------------------------------------------

  predicate IsOws(c: char) {
    c == ' ' || c == '\t'
  }

  function TrimOwsLeft(value: string): (r: string)
    ensures |r| <= |value|
  {
    if value != "" && IsOws(value[0]) then TrimOwsLeft(value[1..]) else value
  }

  function TrimOwsRight(value: string): (r: string)
    ensures |r| <= |value|
  {
    if value != "" && IsOws(value[|value| - 1]) then TrimOwsRight(value[..|value| - 1]) else value
  }

  /** Section 5.6.3 of RFC 9110: spaces and tabs are optional on both sides. */
  function TrimOws(value: string): string {
    TrimOwsRight(TrimOwsLeft(value))
  }

  lemma {:induction false} SpacesAreOws(value: string)
    ensures TrimOwsLeft(TrimLeft(value)) == TrimOwsLeft(value)
  {
    if value != "" && value[0] == ' ' {
      SpacesAreOws(value[1..]);
    }
  }

  /** How many spaces a value begins with. */
  function LeadingSpaces(value: string): (n: nat)
    ensures n <= |value| && (n < |value| ==> value[n] != ' ')
    ensures forall i | 0 <= i < n :: value[i] == ' '
  {
    if value != "" && value[0] == ' ' then
      var n := LeadingSpaces(value[1..]);
      assert forall i | 0 < i < n + 1 :: value[i] == value[1..][i - 1];
      n + 1
    else 0
  }

  /**
   The reader trims less than the standard allows for: the two agree exactly on
   values that are all spaces, or that neither end in a space or tab nor have a
   tab right behind their leading spaces.
   */
  lemma TrimLeftIsOwsIff(value: string)
    ensures TrimLeft(value) == TrimOws(value)
            <==> LeadingSpaces(value) == |value|
                 || (value[LeadingSpaces(value)] != '\t' && !IsOws(value[|value| - 1]))
  {
    TrimLeftIsRest(value);
    EndsOfRest(value, LeadingSpaces(value));
    AgreesIff(value, TrimLeft(value));
  }

  lemma AgreesIff(value: string, rest: string)
    requires TrimLeft(value) == rest
    ensures TrimLeft(value) == TrimOws(value) <==> rest == "" || (rest[0] != '\t' && !IsOws(rest[|rest| - 1]))
  {
    TrimOwsPastSpaces(value);
    TrimOwsOfTrimmed(rest);
  }

  lemma TrimOwsPastSpaces(value: string)
    ensures TrimOws(value) == TrimOws(TrimLeft(value))
  {
    SpacesAreOws(value);
  }

  lemma EndsOfRest(value: string, n: nat)
    requires n <= |value|
    ensures value[n..] == "" <==> n == |value|
    ensures n < |value| ==> value[n..][0] == value[n] && value[n..][|value[n..]| - 1] == value[|value| - 1]
  {
  }

  lemma {:induction false} TrimLeftIsRest(value: string)
    ensures TrimLeft(value) == value[LeadingSpaces(value)..]
  {
    if value != "" && value[0] == ' ' {
      TrimLeftIsRest(value[1..]);
    }
  }

  lemma TrimOwsOfTrimmed(value: string)
    requires value == "" || value[0] != ' '
    ensures TrimOws(value) == value
            <==> value == "" || (value[0] != '\t' && !IsOws(value[|value| - 1]))
  {
    if value != "" && value[0] == '\t' {
      assert |TrimOwsLeft(value[1..])| < |value|;
    }
  }

  // ------------------------------------------------------------------
  // The list
  // ------------------------------------------------------------------

  /** struct curl_slist. */
  class SList {
    const data: string
    var next: SList?

    constructor (data: string)
      ensures this.data == data && next == null
    {
      this.data := data;
      next := null;
    }
  }

  /** The node at position `k`, or null behind the last. */
  ghost function NodeAt(nodes: seq<SList>, k: nat): SList? {
    if k < |nodes| then nodes[k] else null
  }

  /** `nodes` is the list that starts at `head`, node by node. */
  ghost predicate IsList(head: SList?, nodes: seq<SList>)
    reads nodes
  {
    && head == NodeAt(nodes, 0)
    && (forall i | 0 <= i < |nodes| :: nodes[i].next == NodeAt(nodes, i + 1))
  }

  /** A list that ends visits no node twice. */
  lemma {:induction false} NodesAreDistinct(head: SList?, nodes: seq<SList>, i: nat, j: nat)
    requires IsList(head, nodes) && i < j < |nodes|
    ensures nodes[i] != nodes[j]
    decreases |nodes| - j
  {
    assert nodes[i].next == NodeAt(nodes, i + 1);
    assert nodes[j].next == NodeAt(nodes, j + 1);
    if j + 1 < |nodes| {
      NodesAreDistinct(head, nodes, i + 1, j + 1);
    }
  }

  ghost function Lines(nodes: seq<SList>): (r: seq<string>)
    ensures |r| == |nodes|
    ensures forall i | 0 <= i < |nodes| :: r[i] == nodes[i].data
  {
    seq(|nodes|, i requires 0 <= i < |nodes| => nodes[i].data)
  }

  /** The one node that an append has to change. */
  ghost function LastNode(nodes: seq<SList>): set<SList> {
    if nodes == [] then {} else {nodes[|nodes| - 1]}
  }

  /** curl_slist_append: a copy of the C string behind the last node. */
  method Append(head: SList?, data: string, ghost nodes: seq<SList>) returns (list: SList, ghost extended: seq<SList>)
    requires IsList(head, nodes)
    modifies LastNode(nodes)
    ensures IsList(list, extended)
    ensures |extended| == |nodes| + 1 && nodes <= extended && fresh(extended[|nodes|])
    ensures Lines(extended) == Lines(nodes) + [CStr(data)]
  {
    var node := new SList(CStr(data));
    extended := nodes + [node];
    if head == null {
      return node, extended;
    }
    var last := head;
    ghost var k := 0;
    while last.next != null
      invariant 0 <= k < |nodes| && last == nodes[k]
      decreases |nodes| - k
    {
      assert nodes[k].next == NodeAt(nodes, k + 1);
      last := last.next;
      k := k + 1;
    }
    assert k == |nodes| - 1;
    forall i | 0 <= i < k ensures nodes[i] != last {
      NodesAreDistinct(head, nodes, i, k);
    }
    last.next := node;
    list := head;
  }

  /** The variable that holds the list, as the writer points to it. */
  class HeaderSlot {
    var head: SList?
    ghost var nodes: seq<SList>
    /** The sets made so far. */
    ghost var sets: seq<Field>

    constructor ()
      ensures Valid() && nodes == [] && sets == []
    {
      head := null;
      nodes := [];
      sets := [];
    }

    ghost predicate Valid()
      reads this, nodes
    {
      IsList(head, nodes) && Lines(nodes) == SetLines(sets)
    }
  }

  class CurlTraceContextWriter {
    const headers: HeaderSlot

    constructor (headers: HeaderSlot)
      ensures this.headers == headers
    {
      this.headers := headers;
    }

    /** Adds one line, as a C string, behind those already there. */
    method Set(key: string, value: string)
      requires headers.Valid()
      modifies headers, LastNode(headers.nodes)
      ensures headers.Valid() && old(headers.nodes) <= headers.nodes
      ensures |headers.nodes| == |old(headers.nodes)| + 1 && fresh(headers.nodes[|old(headers.nodes)|])
      ensures Lines(headers.nodes) == old(Lines(headers.nodes)) + [CStr(PrintLine(key, value))]
      ensures headers.sets == old(headers.sets) + [Field(key, value)]
    {
      var header := PrintLine(key, value);
      ghost var lines := Lines(headers.nodes);
      SetLinesAppend(headers.sets, Field(key, value));
      var list, extended := Append(headers.head, header, headers.nodes);
      assert Lines(extended) == lines + [CStr(header)];
      headers.head := list;
      headers.nodes := extended;
      headers.sets := headers.sets + [Field(key, value)];
      assert Lines(headers.nodes) == lines + [CStr(header)];
    }
  }

  // ------------------------------------------------------------------
  // Reading
  // ------------------------------------------------------------------

  /** The header entries of the lines, in order; lines without a colon are skipped. */
  function Entries(lines: seq<string>): seq<Field> {
    if lines == [] then []
    else Entries(lines[..|lines| - 1]) + EntryOf(lines[|lines| - 1])
  }

  lemma EntriesAppend(lines: seq<string>, i: nat)
    requires i < |lines|
    ensures Entries(lines[..i + 1]) == Entries(lines[..i]) + EntryOf(lines[i])
  {
    assert lines[..i + 1][..i] == lines[..i];
  }

  lemma {:induction false} EntriesPrefix(lines: seq<string>, i: nat)
    requires i <= |lines|
    ensures Entries(lines[..i]) <= Entries(lines)
    decreases |lines| - i
  {
    if i < |lines| {
      EntriesAppend(lines, i);
      EntriesPrefix(lines, i + 1);
    } else {
      assert lines[..i] == lines;
    }
  }

  /** The value of the first entry with this name, whatever its case (section 5.1 of RFC 9110). */
  function FirstNamed(entries: seq<Field>, key: string): Option<string> {
    if entries == [] then None
    else if FoldEq(entries[0].name, key) then Some(entries[0].value)
    else FirstNamed(entries[1..], key)
  }

  /** The first entry whose name is equal up to case, if there is one. */
  lemma {:induction false} FirstNamedIs(entries: seq<Field>, key: string)
    ensures FirstNamed(entries, key) == None <==> forall i | 0 <= i < |entries| :: !FoldEq(entries[i].name, key)
    ensures forall i | 0 <= i < |entries| && FoldEq(entries[i].name, key)
                       && (forall j | 0 <= j < i :: !FoldEq(entries[j].name, key)) ::
              FirstNamed(entries, key) == Some(entries[i].value)
  {
    if entries != [] {
      var rest := entries[1..];
      FirstNamedIs(rest, key);
      assert forall j | 0 <= j < |rest| :: rest[j] == entries[j + 1];
      forall i | 0 < i < |entries| && FoldEq(entries[i].name, key) && (forall j | 0 <= j < i :: !FoldEq(entries[j].name, key))
        ensures FirstNamed(entries, key) == Some(entries[i].value)
      {
        assert rest[i - 1] == entries[i];
      }
      if FirstNamed(rest, key) == None && !FoldEq(entries[0].name, key) {
        assert forall i | 0 < i < |entries| :: entries[i] == rest[i - 1];
      }
    }
  }

  lemma {:induction false} FirstNamedConcat(a: seq<Field>, b: seq<Field>, key: string)
    ensures FirstNamed(a + b, key)
            == if FirstNamed(a, key).Some? then FirstNamed(a, key) else FirstNamed(b, key)
  {
    if a == [] {
      assert a + b == b;
    } else {
      FirstNamedConcat(a[1..], b, key);
      assert (a + b)[1..] == a[1..] + b;
    }
  }

  /**
   The calls an iteration makes on `entries`: a prefix, ended early only by the
   callback's first refusal. The callback sees everything it has been called with.
   */
  ghost predicate IsVisit(calls: seq<Field>, entries: seq<Field>, goOn: seq<Field> -> bool) {
    && calls <= entries
    && (forall i | 0 < i < |calls| :: goOn(calls[..i]))
    && (|calls| < |entries| ==> calls != [] && !goOn(calls))
  }

  /** That says which calls are made, and no others. */
  lemma VisitIsUnique(one: seq<Field>, other: seq<Field>, entries: seq<Field>, goOn: seq<Field> -> bool)
    requires IsVisit(one, entries, goOn) && IsVisit(other, entries, goOn)
    ensures one == other
  {
    var k := if |one| < |other| then |one| else |other|;
    assert one[..k] == entries[..k] == other[..k];
    assert one[..|one|] == one && other[..|other|] == other;
  }

  /** A callback that never refuses is called with every entry. */
  lemma VisitWithoutStop(calls: seq<Field>, entries: seq<Field>, goOn: seq<Field> -> bool)
    requires IsVisit(calls, entries, goOn) && forall c :: goOn(c)
    ensures calls == entries
  {
  }

  lemma FirstNamedPrefix(found: seq<Field>, all: seq<Field>, key: string)
    requires found <= all && FirstNamed(found, key).Some?
    ensures FirstNamed(all, key) == FirstNamed(found, key)
  {
    FirstNamedConcat(found, all[|found|..], key);
    assert found + all[|found|..] == all;
  }

  /** What the reader learns from line `k`: it decides the lookup, or the lookup goes on. */
  lemma LineDecides(lines: seq<string>, k: nat, key: string)
    requires k < |lines| && FirstNamed(Entries(lines[..k]), key) == None
    ensures FirstNamed(Entries(lines[..k + 1]), key) == FirstNamed(EntryOf(lines[k]), key)
    ensures FirstNamed(EntryOf(lines[k]), key).Some? ==>
              FirstNamed(Entries(lines), key) == FirstNamed(EntryOf(lines[k]), key)
  {
    EntriesAppend(lines, k);
    FirstNamedConcat(Entries(lines[..k]), EntryOf(lines[k]), key);
    if FirstNamed(EntryOf(lines[k]), key).Some? {
      EntriesPrefix(lines, k + 1);
      FirstNamedPrefix(Entries(lines[..k + 1]), Entries(lines), key);
    }
  }

  /** Calls so far, none of them refused. */
  ghost predicate Unrefused(calls: seq<Field>, goOn: seq<Field> -> bool) {
    forall i | 0 < i <= |calls| :: goOn(calls[..i])
  }

  /** One more call either goes on or ends the visit. */
  lemma OneMoreCall(calls: seq<Field>, more: Field, entries: seq<Field>, goOn: seq<Field> -> bool)
    requires Unrefused(calls, goOn) && calls + [more] <= entries
    ensures if goOn(calls + [more]) then Unrefused(calls + [more], goOn)
            else IsVisit(calls + [more], entries, goOn)
  {
    var all := calls + [more];
    assert all[..|all|] == all;
    forall i | 0 < i < |all| ensures goOn(all[..i]) {
      assert all[..i] == calls[..i];
    }
  }

  class CurlHeaderReader {
    const headers: SList?
    ghost const nodes: seq<SList>

    constructor (headers: SList?, ghost nodes: seq<SList>)
      ensures this.headers == headers && this.nodes == nodes
    {
      this.headers := headers;
      this.nodes := nodes;
    }

    /** Exactly the first match in iteration order. */
    method Get(key: string) returns (r: Option<string>)
      requires IsList(headers, nodes)
      ensures r == FirstNamed(Entries(Lines(nodes)), key)
    {
      var item := headers;
      ghost var lines := Lines(nodes);
      ghost var k := 0;
      while item != null
        invariant IsList(headers, nodes)
        invariant 0 <= k <= |nodes| && item == NodeAt(nodes, k)
        invariant FirstNamed(Entries(lines[..k]), key) == None
        decreases |nodes| - k
      {
        var line := item.data;
        LineDecides(lines, k, key);
        var field := SplitLine(line);
        if field.Some? {
          var same := SameName(field.value.name, key);
          if same {
            return Some(field.value.value);
          }
        }
        assert nodes[k].next == NodeAt(nodes, k + 1);
        item := item.next;
        k := k + 1;
      }
      assert lines[..k] == lines;
      return None;
    }

    /** The callback is called with the entries, in order, until it refuses. */
    method ForEach(goOn: seq<Field> -> bool) returns (calls: seq<Field>)
      requires IsList(headers, nodes)
      ensures IsVisit(calls, Entries(Lines(nodes)), goOn)
    {
      calls := [];
      var item := headers;
      ghost var lines := Lines(nodes);
      ghost var k := 0;
      while item != null
        invariant IsList(headers, nodes)
        invariant 0 <= k <= |nodes| && item == NodeAt(nodes, k)
        invariant calls == Entries(lines[..k]) && Unrefused(calls, goOn)
        decreases |nodes| - k
      {
        var line := item.data;
        EntriesAppend(lines, k);
        EntriesPrefix(lines, k + 1);
        var field := SplitLine(line);
        if field.Some? {
          OneMoreCall(calls, field.value, Entries(lines), goOn);
          calls := calls + [field.value];
          if !goOn(calls) {
            return;
          }
        }
        assert nodes[k].next == NodeAt(nodes, k + 1);
        item := item.next;
        k := k + 1;
      }
      assert lines[..k] == lines;
    }
  }

  /** One line, split at its first colon, as both loops do it. */
  method SplitLine(line: string) returns (field: Option<Field>)
    ensures field == ParseLine(line)
  {
    var sep := Find(line, ":", 0);
    if sep.None? {
      return None;
    }
    var value := TrimValue(line[sep.value + 1..]);
    return Some(Field(line[..sep.value], value));
  }

  /** The comparison of a field name with the key, character by character. */
  method SameName(name: string, key: string) returns (same: bool)
    ensures same == FoldEq(name, key)
  {
    FoldEqPointwise(name, key);
    if |name| != |key| {
      return false;
    }
    for i := 0 to |name|
      invariant forall j | 0 <= j < i :: LowerChar(name[j]) == LowerChar(key[j])
    {
      if LowerChar(name[i]) != LowerChar(key[i]) {
        return false;
      }
    }
    return true;
  }

  /** `trim_value`: drops leading spaces, one at a time. */
  method TrimValue(value: string) returns (r: string)
    ensures r == TrimLeft(value)
  {
    r := value;
    while r != "" && r[0] == ' '
      invariant TrimLeft(r) == TrimLeft(value)
      decreases |r|
    {
      r := r[1..];
    }
  }

  // ------------------------------------------------------------------
  // Any sequence of sets
  // ------------------------------------------------------------------

  /** The lines after a sequence of sets on an empty list. */
  function SetLines(sets: seq<Field>): seq<string> {
    if sets == [] then []
    else
      var last := sets[|sets| - 1];
      SetLines(sets[..|sets| - 1]) + [CStr(PrintLine(last.name, last.value))]
  }

  lemma SetLinesAppend(sets: seq<Field>, more: Field)
    ensures SetLines(sets + [more]) == SetLines(sets) + [CStr(PrintLine(more.name, more.value))]
  {
    assert (sets + [more])[..|sets|] == sets;
  }

  function Survivors(sets: seq<Field>): seq<Field> {
    if sets == [] then []
    else
      var last := sets[|sets| - 1];
      Survivors(sets[..|sets| - 1]) + Survivor(last.name, last.value)
  }

  /** After any sequence of sets with colon-free keys, reading yields what survives of each, in order. */
  lemma {:induction false} ReadingYieldsSurvivors(sets: seq<Field>)
    requires forall i | 0 <= i < |sets| :: ':' !in sets[i].name
    ensures Entries(SetLines(sets)) == Survivors(sets)
  {
    if sets != [] {
      var front, last := sets[..|sets| - 1], sets[|sets| - 1];
      ReadingYieldsSurvivors(front);
      SetSurvives(last.name, last.value);
      var lines := SetLines(sets);
      assert lines[..|lines| - 1] == SetLines(front);
    }
  }

  lemma {:induction false} SurvivorsAreTheSets(sets: seq<Field>)
    requires forall i | 0 <= i < |sets| :: NUL !in sets[i].name && NUL !in sets[i].value
    ensures |Survivors(sets)| == |sets|
    ensures forall i | 0 <= i < |sets| :: Survivors(sets)[i] == Field(sets[i].name, TrimLeft(sets[i].value))
  {
    if sets != [] {
      SurvivorsAreTheSets(sets[..|sets| - 1]);
    }
  }

  /**
   After any sequence of sets with colon-free keys and no NULs, reading yields
   exactly the keys with their left-trimmed values, in order.
   */
  lemma RoundTrip(sets: seq<Field>)
    requires forall i | 0 <= i < |sets| :: ':' !in sets[i].name && NUL !in sets[i].name && NUL !in sets[i].value
    ensures |Entries(SetLines(sets))| == |sets|
    ensures forall i | 0 <= i < |sets| :: Entries(SetLines(sets))[i] == Field(sets[i].name, TrimLeft(sets[i].value))
  {
    ReadingYieldsSurvivors(sets);
    SurvivorsAreTheSets(sets);
  }

  lemma TakeNext(done: seq<Field>, todo: seq<Field>)
    requires todo != []
    ensures done + [Field(todo[0].name, todo[0].value)] + todo[1..] == done + todo
  {
  }

  /** A sequence of `Set` calls, as the agent makes them when it injects a context. */
  method SetAll(writer: CurlTraceContextWriter, sets: seq<Field>)
    requires writer.headers.Valid()
    modifies writer.headers, LastNode(writer.headers.nodes)
    ensures writer.headers.Valid() && writer.headers.sets == old(writer.headers.sets) + sets
    ensures Lines(writer.headers.nodes) == SetLines(writer.headers.sets)
  {
    var slot := writer.headers;
    ghost var all, mine := slot.sets + sets, LastNode(slot.nodes);
    var todo := sets;
    while todo != []
      invariant slot.Valid() && slot.sets + todo == all
      invariant LastNode(slot.nodes) == mine || fresh(LastNode(slot.nodes))
      decreases |todo|
    {
      TakeNext(slot.sets, todo);
      writer.Set(todo[0].name, todo[0].value);
      todo := todo[1..];
    }
    assert slot.sets + [] == slot.sets;
  }

  /**
   The round trip on the heap: whatever was set, an iteration over the list that
   is there visits what survives of each set, in order, and a lookup returns the
   first match among them. Without NULs, what survives of a set is its key and
   its left-trimmed value.
   */
  method ReadBack(slot: HeaderSlot, goOn: seq<Field> -> bool, key: string)
    returns (calls: seq<Field>, found: Option<string>)
    requires slot.Valid()
    requires forall i | 0 <= i < |slot.sets| :: ':' !in slot.sets[i].name
    ensures IsVisit(calls, Survivors(slot.sets), goOn)
    ensures found == FirstNamed(Survivors(slot.sets), key)
    ensures (forall i | 0 <= i < |slot.sets| :: NUL !in slot.sets[i].name && NUL !in slot.sets[i].value) ==>
              && |Survivors(slot.sets)| == |slot.sets|
              && forall i | 0 <= i < |slot.sets| ::
                   Survivors(slot.sets)[i] == Field(slot.sets[i].name, TrimLeft(slot.sets[i].value))
  {
    ReadingYieldsSurvivors(slot.sets);
    if forall i | 0 <= i < |slot.sets| :: NUL !in slot.sets[i].name && NUL !in slot.sets[i].value {
      SurvivorsAreTheSets(slot.sets);
    }
    var reader := new CurlHeaderReader(slot.head, slot.nodes);
    calls := reader.ForEach(goOn);
    found := reader.Get(key);
  }
}
