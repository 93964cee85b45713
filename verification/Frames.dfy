/**
 The call-stack reader of the cpptrace example (cpptrace/cpptrace_example.cpp:33-75):
 which frames it passes on, and how it splits a symbol into module and function.
 */
module Frames {
  import opened Text

  /** A frame with its symbol pruned and its file name cut to the base name. */
  datatype Frame = Frame(symbol: string, base: string, line: Option<nat>)

  /** The arguments of one callback. */
  datatype Call = Call(moduleName: string, functionName: string, file: string, line: nat)

  const SCOPE := "::"
  const STD := "std::"
  const UNKNOWN := "unknown"

  ghost predicate Occurs(s: string, p: string) {
    exists i: nat :: OccursAt(s, p, i)
  }

  predicate IsSkipped(f: Frame) {
    f.symbol == "" || StartsWith(f.symbol, STD)
  }

  /** The frames that are passed on, in order. */
  function Kept(frames: seq<Frame>): (r: seq<Frame>)
    ensures forall f :: f in r <==> f in frames && !IsSkipped(f)
  {
    if frames == [] then []
    else
      var f := frames[|frames| - 1];
      var before := frames[..|frames| - 1];
      assert frames == before + [f];
      Kept(before) + if IsSkipped(f) then [] else [f]
  }

  lemma SkippedIs(f: Frame)
    ensures IsSkipped(f) <==> f.symbol == "" || "std::" <= f.symbol
  {
  }

  /** `at` lists the positions of the frames passed on, in increasing order. */
  ghost predicate ArePositions(frames: seq<Frame>, at: seq<nat>) {
    && (forall j | 0 <= j < |at| :: at[j] < |frames| && !IsSkipped(frames[at[j]]))
    && (forall j, k | 0 <= j < k < |at| :: at[j] < at[k])
    && (forall i | 0 <= i < |frames| && !IsSkipped(frames[i]) :: i in at)
  }

  lemma OnePositionMore(frames: seq<Frame>, at: seq<nat>)
    requires frames != [] && ArePositions(frames[..|frames| - 1], at)
    ensures IsSkipped(frames[|frames| - 1]) ==> ArePositions(frames, at)
    ensures !IsSkipped(frames[|frames| - 1]) ==> ArePositions(frames, at + [|frames| - 1])
  {
    var n := |frames| - 1;
    assert forall i | 0 <= i < n :: frames[..n][i] == frames[i];
    if !IsSkipped(frames[n]) {
      assert forall i | i in at :: i in at + [n];
      assert (at + [n])[|at|] == n;
    }
  }

  /** The frames passed on are those at increasing positions, and at every position that is not skipped. */
  lemma {:induction false} KeptInOrder(frames: seq<Frame>) returns (at: seq<nat>)
    ensures |at| == |Kept(frames)| && ArePositions(frames, at)
    ensures forall j | 0 <= j < |at| :: Kept(frames)[j] == frames[at[j]]
  {
    if frames == [] {
      at := [];
    } else {
      var n := |frames| - 1;
      var before := KeptInOrder(frames[..n]);
      OnePositionMore(frames, before);
      at := if IsSkipped(frames[n]) then before else before + [n];
    }
  }

  // ------------------------------------------------------------------
  // What a callback says about its frame
  // ------------------------------------------------------------------

  /** The symbol, cut at its last "::". */
  ghost predicate IsCut(symbol: string, scope: string, name: string) {
    symbol == scope + SCOPE + name && !Occurs(":" + name, SCOPE)
  }

  /** What stands in front of the first dot. */
  predicate IsStem(file: string, stem: string) {
    '.' !in stem && stem + "." <= file
  }

  ghost predicate Describes(c: Call, f: Frame) {
    && (f.base == "" ==> c.file == "unknown" && c.line == 0)
    && (f.base != "" ==> c.file == f.base && c.line == match f.line case Some(n) => n case None => 0)
    && (if Occurs(f.symbol, SCOPE) then IsCut(f.symbol, c.moduleName, c.functionName)
        else c.functionName == f.symbol && if '.' in c.file then IsStem(c.file, c.moduleName) else c.moduleName == "unknown")
  }

  // ------------------------------------------------------------------
  // The reader
  // ------------------------------------------------------------------

  method StartsWithPrefix(str: string, prefix: string) returns (r: bool)
    ensures r == StartsWith(str, prefix)
  {
    if |str| < |prefix| {
      return false;
    }
    return str[..|prefix|] == prefix;
  }

  /** The body of the loop, for a frame that is passed on. */
  method DescribeFrame(frame: Frame) returns (call: Call)
    ensures Describes(call, frame)
  {
    var symbol := frame.symbol;
    var moduleName := UNKNOWN;
    var functionName := symbol;
    var file := frame.base;
    var line := match frame.line case Some(k) => k case None => 0;
    if file == "" {
      file := UNKNOWN;
      line := 0;
    }
    var pos := FindLast(symbol, SCOPE);
    if pos.Some? {
      moduleName := symbol[..pos.value];
      functionName := symbol[pos.value + 2..];
      LastScopeCuts(symbol, pos.value);
    } else {
      pos := Find(file, ".", 0);
      DotInFile(file);
      if pos.Some? {
        moduleName := file[..pos.value];
      }
    }
    call := Call(moduleName, functionName, file, line);
  }

  /** `ForEach`, with the callbacks collected in the order they are made. */
  method ForEach(frames: seq<Frame>) returns (calls: seq<Call>)
    ensures |calls| == |Kept(frames)|
    ensures forall i | 0 <= i < |calls| :: Describes(calls[i], Kept(frames)[i])
  {
    calls := [];
    for n := 0 to |frames|
      invariant |calls| == |Kept(frames[..n])|
      invariant forall i | 0 <= i < |calls| :: Describes(calls[i], Kept(frames[..n])[i])
    {
      assert frames[..n + 1][..n] == frames[..n];
      var symbol := frames[n].symbol;
      var std := StartsWithPrefix(symbol, STD);
      if symbol == "" || std {
        continue;
      }
      var call := DescribeFrame(frames[n]);
      calls := calls + [call];
    }
    assert frames[..|frames|] == frames;
  }

  lemma ScopeAt(s: string, i: nat)
    ensures OccursAt(s, SCOPE, i) <==> i + 2 <= |s| && s[i] == ':' && s[i + 1] == ':'
  {
    if i + 2 <= |s| {
      assert s[i..i + 2] == [s[i], s[i + 1]];
    }
  }

  /** Cutting at the last "::" leaves none behind the cut. */
  lemma LastScopeCuts(symbol: string, pos: nat)
    requires FindLast(symbol, SCOPE) == Some(pos)
    ensures IsCut(symbol, symbol[..pos], symbol[pos + 2..])
  {
    var name := symbol[pos + 2..];
    forall j: nat ensures !OccursAt(":" + name, SCOPE, j) {
      ScopeAt(":" + name, j);
      ScopeAt(symbol, pos);
      ScopeAt(symbol, pos + 1 + j);
    }
    assert symbol == symbol[..pos] + symbol[pos..pos + 2] + symbol[pos + 2..];
  }

  lemma DotInFile(file: string)
    ensures Find(file, ".", 0).Some? <==> '.' in file
    ensures Find(file, ".", 0).Some? ==> IsStem(file, file[..Find(file, ".", 0).value])
  {
    var r := Find(file, ".", 0);
    forall i: nat ensures OccursAt(file, ".", i) <==> i < |file| && file[i] == '.' {
      CharOccurs(file, '.', i);
    }
    if r.Some? {
      var stem := file[..r.value];
      assert forall i: nat | i < |stem| :: stem[i] == file[i] && !OccursAt(file, ".", i);
      assert file[..r.value + 1] == stem + ".";
    }
  }

  // ------------------------------------------------------------------
  // What the callbacks determine
  // ------------------------------------------------------------------

  /** A symbol has one last "::". */
  lemma CutIsUnique(symbol: string, a: string, x: string, b: string, y: string)
    requires IsCut(symbol, a, x) && IsCut(symbol, b, y)
    ensures a == b && x == y
  {
    if |a| < |b| {
      LaterCut(symbol, a, x, b, y);
    } else if |b| < |a| {
      LaterCut(symbol, b, y, a, x);
    }
    assert a == symbol[..|a|] && b == symbol[..|b|];
    assert x == symbol[|a| + 2..] && y == symbol[|b| + 2..];
  }

  lemma LaterCut(symbol: string, a: string, x: string, b: string, y: string)
    requires symbol == a + SCOPE + x && symbol == b + SCOPE + y && |a| < |b|
    ensures Occurs(":" + x, SCOPE)
  {
    var j: nat := |b| - |a| - 1;
    assert forall i | 0 <= i < |":" + x| :: (":" + x)[i] == symbol[|a| + 1 + i];
    assert symbol[|b|] == ':' && symbol[|b| + 1] == ':';
    ScopeAt(":" + x, j);
  }

  /** The stem ends where the first dot is found. */
  lemma StemEndsAtFirstDot(file: string, stem: string)
    requires IsStem(file, stem)
    ensures Find(file, ".", 0) == Some(|stem|) && stem == file[..|stem|]
  {
    assert stem == (stem + ".")[..|stem|] == file[..|stem|] == file[0..|stem|];
    assert file[|stem|] == (stem + ".")[|stem|];
    FindCharAt(file, '.', 0, |stem|);
  }

  lemma StemIsUnique(file: string, a: string, b: string)
    requires IsStem(file, a) && IsStem(file, b)
    ensures a == b
  {
    StemEndsAtFirstDot(file, a);
    StemEndsAtFirstDot(file, b);
  }

  /** The description leaves nothing open: a frame has one callback. */
  lemma DescriptionIsUnique(f: Frame, c: Call, d: Call)
    requires Describes(c, f) && Describes(d, f)
    ensures c == d
  {
    if Occurs(f.symbol, SCOPE) {
      CutIsUnique(f.symbol, c.moduleName, c.functionName, d.moduleName, d.functionName);
    } else if '.' in c.file {
      StemIsUnique(c.file, c.moduleName, d.moduleName);
    }
  }

  /** A function name never contains "::", and rebuilds the symbol with its module if there was one. */
  lemma NothingIsLost(f: Frame, c: Call)
    requires Describes(c, f)
    ensures !Occurs(c.functionName, SCOPE)
    ensures Occurs(f.symbol, SCOPE) ==> c.moduleName + SCOPE + c.functionName == f.symbol
    ensures !Occurs(f.symbol, SCOPE) ==> c.functionName == f.symbol
  {
    if Occurs(f.symbol, SCOPE) {
      forall i: nat ensures !OccursAt(c.functionName, SCOPE, i) {
        ScopeAt(c.functionName, i);
        ScopeAt(":" + c.functionName, i + 1);
        assert !OccursAt(":" + c.functionName, SCOPE, i + 1);
      }
    }
  }

  /**
   Frames that agree in module and function have the same symbol exactly when
   both symbols are scoped or neither is.
   */
  lemma SameNamesSameSymbolIff(f: Frame, c: Call, g: Frame, d: Call)
    requires Describes(c, f) && Describes(d, g)
    requires c.moduleName == d.moduleName && c.functionName == d.functionName
    ensures f.symbol == g.symbol <==> (Occurs(f.symbol, SCOPE) <==> Occurs(g.symbol, SCOPE))
  {
    NothingIsLost(f, c);
    NothingIsLost(g, d);
  }

  /** A member of `foo` and a free function of foo.cpp cannot be told apart. */
  lemma ScopedAndFreeNamesMeet(scope: string, name: string, line: Option<nat>)
    requires '.' !in scope && !Occurs(":" + name, SCOPE)
    ensures var scoped, free := Frame(scope + SCOPE + name, scope + ".cpp", line), Frame(name, scope + ".cpp", line);
            exists c :: Describes(c, scoped) && Describes(c, free)
  {
    var n := match line case Some(k) => k case None => 0;
    var c := Call(scope, name, scope + ".cpp", n);
    var symbol := scope + SCOPE + name;
    ScopeAt(symbol, |scope|);
    assert OccursAt(symbol, SCOPE, |scope|);
    forall i: nat ensures !OccursAt(name, SCOPE, i) {
      ScopeAt(name, i);
      ScopeAt(":" + name, i + 1);
      assert !OccursAt(":" + name, SCOPE, i + 1);
    }
    assert scope + ".cpp" == scope + "." + "cpp";
    assert (scope + ".cpp")[|scope|] == '.';
    assert Describes(c, Frame(symbol, scope + ".cpp", line));
    assert Describes(c, Frame(name, scope + ".cpp", line));
  }
}
