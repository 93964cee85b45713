/**
 Texts put together from pieces: which tokens they spell, and when they are JSON
 for a value.
 */
module JsonSpelling {
  import opened Text
  import opened Json

  // ------------------------------------------------------------------
  // Text that spells tokens
  // ------------------------------------------------------------------

  /** Whatever follows, the text reads as these tokens exactly when `plain` holds. */
  ghost predicate Spells(text: string, tokens: seq<Token>, plain: bool) {
    forall rest: string, more: seq<Token> ::
      Lex(text + rest) == Some(tokens + more) <==> plain && Lex(rest) == Some(more)
  }

  lemma SpellConcat(a: string, s: seq<Token>, p: bool, b: string, t: seq<Token>, q: bool)
    requires Spells(a, s, p) && Spells(b, t, q)
    ensures Spells(a + b, s + t, p && q)
  {
    forall rest: string, more: seq<Token>
      ensures Lex(a + b + rest) == Some(s + t + more) <==> p && q && Lex(rest) == Some(more)
    {
      assert a + b + rest == a + (b + rest);
      assert s + t + more == s + (t + more);
      assert Lex(b + rest) == Some(t + more) <==> q && Lex(rest) == Some(more);
    }
  }

  lemma {:induction false} LexBehindWhitespace(s: string, rest: string)
    requires IsSpace(s)
    ensures Lex(s + rest) == Lex(rest)
  {
    if s == "" {
      assert s + rest == rest;
    } else {
      LexBehindWhitespace(s[1..], rest);
      assert (s + rest)[1..] == s[1..] + rest;
    }
  }

  lemma SpellWhitespace(s: string)
    requires IsSpace(s)
    ensures Spells(s, [], true)
  {
    forall rest: string, more: seq<Token>
      ensures Lex(s + rest) == Some([] + more) <==> Lex(rest) == Some(more)
    {
      LexBehindWhitespace(s, rest);
      assert [] + more == more;
    }
  }

  /** A text that always reads as one token. */
  lemma SpellToken(text: string, token: Token)
    requires forall rest: string :: Lex(text + rest) == Prepend(token, Lex(rest))
    ensures Spells(text, [token], true)
  {
    forall rest: string, more: seq<Token>
      ensures Lex(text + rest) == Some([token] + more) <==> Lex(rest) == Some(more)
    {
      assert Lex(text + rest) == Prepend(token, Lex(rest));
      FirstCancels(token, Lex(rest), more);
    }
  }

  lemma FirstCancels(token: Token, rest: Option<seq<Token>>, more: seq<Token>)
    ensures Prepend(token, rest) == Some([token] + more) <==> rest == Some(more)
  {
    if Prepend(token, rest) == Some([token] + more) {
      assert rest.value == ([token] + rest.value)[1..] == ([token] + more)[1..] == more;
    }
  }

  lemma SpellStructural(c: char)
    requires Structural(c).Some?
    ensures Spells([c], [Structural(c).value], true)
  {
    forall rest: string ensures Lex([c] + rest) == Prepend(Structural(c).value, Lex(rest)) {
      assert ([c] + rest)[1..] == rest;
    }
    SpellToken([c], Structural(c).value);
  }

  lemma LexTruth(b: bool, s: string)
    requires StartsWith(s, TruthName(b))
    ensures Lex(s) == Prepend(Truth(b), Lex(s[|TruthName(b)|..]))
  {
    assert s[0] == TruthName(b)[0];
    if !b {
      assert s[..|TruthName(true)|] != TruthName(true) by {
        assert s[0] != TruthName(true)[0];
      }
    }
  }

  lemma SpellTruth(b: bool)
    ensures Spells(TruthName(b), [Truth(b)], true)
  {
    var name := TruthName(b);
    forall rest: string ensures Lex(name + rest) == Prepend(Truth(b), Lex(rest)) {
      LexTruth(b, name + rest);
      assert (name + rest)[|name|..] == rest;
    }
    SpellToken(name, Truth(b));
  }

  // ------------------------------------------------------------------
  // Strings printed between two quotes
  // ------------------------------------------------------------------

  function Quoted(s: string): string {
    "\"" + s + "\""
  }

  lemma {:induction false} ScanPlain(s: string, from: nat, end: nat)
    requires from <= end < |s| && s[end] == '"' && IsPlain(s[from..end])
    ensures ScanString(s, from) == Scanned(s[from..end], end)
    decreases end - from
  {
    if from < end {
      assert s[from..end][0] == s[from];
      assert s[from + 1..end] == s[from..end][1..];
      ScanPlain(s, from + 1, end);
      assert s[from..end] == [s[from]] + s[from + 1..end];
    }
  }

  /** A quote that does not end the string has been escaped, and is found earlier in what was read. */
  lemma {:induction false} PassedQuoteIsRead(s: string, from: nat, q: nat) returns (d: nat)
    requires ScanString(s, from).Scanned? && from <= q < ScanString(s, from).end && s[q] == '"'
    ensures d < q - from && d < |ScanString(s, from).text| && ScanString(s, from).text[d] == '"'
    decreases |s| - from
  {
    var e := LetterAt(s, from).value;
    if q < from + e.width {
      d := 0;
    } else {
      var k := PassedQuoteIsRead(s, from + e.width, q);
      d := k + 1;
    }
  }

  /** Escapes are longer than what they stand for. */
  lemma {:induction false} ReadIsNoLonger(s: string, from: nat)
    requires ScanString(s, from).Scanned?
    ensures |ScanString(s, from).text| <= ScanString(s, from).end - from
    ensures |ScanString(s, from).text| == ScanString(s, from).end - from ==> IsPlain(ScanString(s, from).text)
    decreases |s| - from
  {
    if s[from] != '"' {
      ReadIsNoLonger(s, from + LetterAt(s, from).value.width);
    }
  }

  /** What is read back unchanged contains no quote that was passed. */
  lemma {:induction false} NoQuoteWasPassed(s: string, rest: string, q: nat)
    requires q <= |s| && (Quoted(s) + rest)[q + 1] == '"'
    requires ScanString(Quoted(s) + rest, 1).Scanned? && ScanString(Quoted(s) + rest, 1).text == s
    ensures ScanString(Quoted(s) + rest, 1).end <= q + 1
  {
    if q + 1 < ScanString(Quoted(s) + rest, 1).end {
      var d := PassedQuoteIsRead(Quoted(s) + rest, 1, q + 1);
      NoQuoteWasPassed(s, rest, d);
    }
  }

  /** Between two quotes, exactly the plain strings are read back as they are. */
  lemma ReadBackIffPlain(s: string, rest: string)
    ensures ScanString(Quoted(s) + rest, 1).Scanned? && ScanString(Quoted(s) + rest, 1).text == s <==> IsPlain(s)
    ensures IsPlain(s) ==> ScanString(Quoted(s) + rest, 1).end == |s| + 1
  {
    var text := Quoted(s) + rest;
    if IsPlain(s) {
      assert text[1..|s| + 1] == s;
      ScanPlain(text, 1, |s| + 1);
    } else if ScanString(text, 1).Scanned? && ScanString(text, 1).text == s {
      ReadIsNoLonger(text, 1);
      NoQuoteWasPassed(s, rest, |s|);
    }
  }

  lemma LexBehindQuote(text: string)
    requires text != "" && text[0] == '"'
    ensures Lex(text) == match ScanString(text, 1)
                         case Unterminated => None
                         case Scanned(s, end) => Prepend(Quote(s), Lex(text[end + 1..]))
  {
  }

  lemma SpellQuoted(s: string)
    ensures Spells(Quoted(s), [Quote(s)], IsPlain(s))
  {
    forall rest: string, more: seq<Token>
      ensures Lex(Quoted(s) + rest) == Some([Quote(s)] + more) <==> IsPlain(s) && Lex(rest) == Some(more)
    {
      LexBehindQuote(Quoted(s) + rest);
      ReadBackIffPlain(s, rest);
      if IsPlain(s) {
        assert (Quoted(s) + rest)[|s| + 2..] == rest;
        FirstCancels(Quote(s), Lex(rest), more);
      } else {
        assert ([Quote(s)] + more)[0] == Quote(s);
      }
    }
  }

  /** A printed text is JSON for a value exactly when the printed strings are plain. */
  lemma SpelledValueParses(text: string, v: Value, plain: bool)
    requires Spells(text, TokensOf(v), plain)
    ensures Parse(text) == Some(v) <==> plain
  {
    assert text + "" == text;
    assert TokensOf(v) + [] == TokensOf(v);
    assert Lex("") == Some([]);
    ParsesIffTokensMatch(text, v);
  }

  // ------------------------------------------------------------------
  // Texts put together
  // ------------------------------------------------------------------

  /** One member on a line of its own. */
  function Field(indent: string, name: string, value: string): string {
    indent + Quoted(name) + ": " + value
  }

  const NEXT := ",\n"

  function Braces(before: string, body: string, behind: string): string {
    "{" + before + body + behind + "}"
  }

  function Brackets(before: string, body: string, behind: string): string {
    "[" + before + body + behind + "]"
  }

  lemma SpellSpaced(before: string, c: char, behind: string)
    requires IsSpace(before) && IsSpace(behind) && Structural(c).Some?
    ensures Spells(before + [c] + behind, [Structural(c).value], true)
  {
    var t := [Structural(c).value];
    SpellWhitespace(before);
    SpellWhitespace(behind);
    SpellStructural(c);
    SpellConcat(before, [], true, [c], t, true);
    SpellConcat(before + [c], [] + t, true, behind, [], true);
    assert [] + t + [] == t;
  }

  lemma SpellColon()
    ensures Spells(": ", [Colon], true)
  {
    SpellSpaced("", ':', " ");
    assert "" + [':'] + " " == ": ";
  }

  lemma OneMember(name: string, v: Value)
    ensures MemberTokens([Member(name, v)]) == [Quote(name)] + [Colon] + TokensOf(v)
  {
    assert MemberTokens([Member(name, v)]) == [Quote(name), Colon] + TokensOf(v) + [];
  }

  lemma SpellIndented(indent: string, name: string)
    requires IsSpace(indent)
    ensures Spells(indent + Quoted(name), [Quote(name)], IsPlain(name))
  {
    SpellWhitespace(indent);
    SpellQuoted(name);
    SpellConcat(indent, [], true, Quoted(name), [Quote(name)], IsPlain(name));
    EmptyPrefix([Quote(name)]);
  }

  lemma SpellField(indent: string, name: string, text: string, v: Value, plain: bool)
    requires IsSpace(indent) && Spells(text, TokensOf(v), plain)
    ensures Spells(Field(indent, name, text), MemberTokens([Member(name, v)]), IsPlain(name) && plain)
  {
    SpellIndented(indent, name);
    SpellColon();
    SpellConcat(indent + Quoted(name), [Quote(name)], IsPlain(name), ": ", [Colon], true);
    SpellConcat(indent + Quoted(name) + ": ", [Quote(name)] + [Colon], IsPlain(name), text, TokensOf(v), plain);
    OneMember(name, v);
  }

  lemma {:induction false} MembersAppend(ms: seq<Member>, ns: seq<Member>)
    requires ms != [] && ns != []
    ensures MemberTokens(ms + ns) == MemberTokens(ms) + [Comma] + MemberTokens(ns)
  {
    assert (ms + ns)[1..] == ms[1..] + ns;
    if |ms| > 1 {
      MembersAppend(ms[1..], ns);
    } else {
      assert ms[1..] + ns == ns;
    }
  }

  lemma {:induction false} ItemsAppend(vs: seq<Value>, ws: seq<Value>)
    requires vs != [] && ws != []
    ensures ItemTokens(vs + ws) == ItemTokens(vs) + [Comma] + ItemTokens(ws)
  {
    assert (vs + ws)[1..] == vs[1..] + ws;
    if |vs| > 1 {
      ItemsAppend(vs[1..], ws);
    } else {
      assert vs[1..] + ws == ws;
    }
  }

  /** Two lists with a comma and a line break between them. */
  lemma SpellNext(a: string, s: seq<Token>, p: bool, b: string, t: seq<Token>, q: bool)
    requires Spells(a, s, p) && Spells(b, t, q)
    ensures Spells(a + NEXT + b, s + [Comma] + t, p && q)
  {
    SpellSpaced("", ',', "\n");
    assert "" + [','] + "\n" == NEXT;
    SpellConcat(a, s, p, NEXT, [Comma], true);
    SpellConcat(a + NEXT, s + [Comma], p, b, t, q);
  }

  lemma SpellMembers(a: string, ms: seq<Member>, p: bool, b: string, ns: seq<Member>, q: bool)
    requires ms != [] && ns != []
    requires Spells(a, MemberTokens(ms), p) && Spells(b, MemberTokens(ns), q)
    ensures Spells(a + NEXT + b, MemberTokens(ms + ns), p && q)
  {
    MembersAppend(ms, ns);
    SpellNext(a, MemberTokens(ms), p, b, MemberTokens(ns), q);
  }

  lemma SpellItems(a: string, vs: seq<Value>, p: bool, b: string, ws: seq<Value>, q: bool)
    requires vs != [] && ws != []
    requires Spells(a, ItemTokens(vs), p) && Spells(b, ItemTokens(ws), q)
    ensures Spells(a + NEXT + b, ItemTokens(vs + ws), p && q)
  {
    ItemsAppend(vs, ws);
    SpellNext(a, ItemTokens(vs), p, b, ItemTokens(ws), q);
  }

  /** A list between its opening and its closing character. */
  lemma SpellEnclosed(open: char, before: string, body: string, t: seq<Token>, p: bool, behind: string, close: char)
    requires IsSpace(before) && IsSpace(behind) && Structural(open).Some? && Structural(close).Some?
    requires Spells(body, t, p)
    ensures Spells([open] + before + body + behind + [close],
                   [Structural(open).value] + t + [Structural(close).value], p)
  {
    var first, last := Structural(open).value, Structural(close).value;
    SpellSpaced("", open, before);
    SpellSpaced(behind, close, "");
    assert "" + [open] + before == [open] + before;
    assert behind + [close] + "" == behind + [close];
    SpellConcat([open] + before, [first], true, body, t, p);
    SpellConcat([open] + before + body, [first] + t, p, behind + [close], [last], true);
    assert [open] + before + body + behind + [close] == [open] + before + body + (behind + [close]);
  }

  lemma SpellObject(before: string, body: string, ms: seq<Member>, p: bool, behind: string)
    requires IsSpace(before) && IsSpace(behind) && Spells(body, MemberTokens(ms), p)
    ensures Spells(Braces(before, body, behind), TokensOf(Obj(ms)), p)
  {
    SpellEnclosed('{', before, body, MemberTokens(ms), p, behind, '}');
  }

  lemma SpellArray(before: string, body: string, vs: seq<Value>, p: bool, behind: string)
    requires IsSpace(before) && IsSpace(behind) && Spells(body, ItemTokens(vs), p)
    ensures Spells(Brackets(before, body, behind), TokensOf(Arr(vs)), p)
  {
    SpellEnclosed('[', before, body, ItemTokens(vs), p, behind, ']');
  }
}
