/**
 A reader for the JSON texts of the examples: objects, arrays, strings with their
 escapes, `true` and `false` (sections 3, 4, 5 and 7 of RFC 8259). Numbers, `null`
 and surrogate pairs do not occur in those texts and are rejected, so whatever
 is accepted is valid JSON.
 */
module Json {
  import opened Text

  datatype Value = Str(text: string) | Obj(members: seq<Member>) | Arr(items: seq<Value>) | Bool(truth: bool)
  datatype Member = Member(name: string, value: Value)

  // ------------------------------------------------------------------
  // Tokens
  // ------------------------------------------------------------------

  datatype Token = LBrace | RBrace | LBracket | RBracket | Colon | Comma | Quote(text: string) | Truth(value: bool)

  predicate IsWhitespace(c: char) {
    c == ' ' || c == '\t' || c == '\n' || c == '\r'
  }

  predicate IsSpace(s: string) {
    forall i | 0 <= i < |s| :: IsWhitespace(s[i])
  }

  /** A character that may stand in a string as it is. */
  predicate IsUnescaped(c: char) {
    c >= ' ' && c != '"' && c != '\\'
  }

  predicate IsPlain(s: string) {
    forall i | 0 <= i < |s| :: IsUnescaped(s[i])
  }

  type PlainText = s: string | IsPlain(s)

  /** A text in two pieces: a long literal is only checked to be plain piece by piece. */
  function Joined(a: PlainText, b: PlainText): PlainText {
    assert forall i | 0 <= i < |a + b| :: (a + b)[i] == if i < |a| then a[i] else b[i - |a|];
    a + b
  }

  function Structural(c: char): Option<Token> {
    if c == '{' then Some(LBrace) else if c == '}' then Some(RBrace)
    else if c == '[' then Some(LBracket) else if c == ']' then Some(RBracket)
    else if c == ':' then Some(Colon) else if c == ',' then Some(Comma)
    else None
  }

  /** One character inside a string, and the length of its spelling. */
  datatype Letter = Letter(stands: char, width: nat)

  predicate IsHexDigit(c: char) {
    IsDigit(c) || 'a' <= c <= 'f' || 'A' <= c <= 'F'
  }

  function HexDigitValue(c: char): (r: nat)
    requires IsHexDigit(c)
    ensures r <= 15
  {
    if IsDigit(c) then DigitValue(c)
    else if 'a' <= c then c as int - 'a' as int + 10
    else c as int - 'A' as int + 10
  }

  /** The character of a two-character escape. */
  function ShortEscape(c: char): Option<char> {
    match c
    case '"' => Some('"')
    case '\\' => Some('\\')
    case '/' => Some('/')
    case 'b' => Some(8 as char)
    case 'f' => Some(12 as char)
    case 'n' => Some('\n')
    case 'r' => Some('\r')
    case 't' => Some('\t')
    case _ => None
  }

  /** The four digits of a `\u` escape; halves of a surrogate pair are rejected. */
  function FourHex(digits: string): (r: Option<char>)
    requires |digits| == 4
    ensures r.Some? ==> forall i | 0 <= i < 4 :: IsHexDigit(digits[i])
  {
    if forall i | 0 <= i < 4 :: IsHexDigit(digits[i]) then
      var n := ((HexDigitValue(digits[0]) * 16 + HexDigitValue(digits[1])) * 16
                + HexDigitValue(digits[2])) * 16 + HexDigitValue(digits[3]);
      if n < 0xD800 || 0xE000 <= n then Some(n as char) else None
    else None
  }

  /** The escape whose backslash is at `at`. */
  function EscapeAt(s: string, at: nat): (r: Option<Letter>)
    ensures r.Some? ==> 2 <= r.value.width && at + r.value.width <= |s|
    ensures r.Some? ==> forall i | at < i < at + r.value.width && s[i] == '"' :: r.value.stands == '"'
  {
    if at + 1 >= |s| then None
    else if ShortEscape(s[at + 1]).Some? then Some(Letter(ShortEscape(s[at + 1]).value, 2))
    else if s[at + 1] == 'u' && at + 6 <= |s| then
      assert forall i | at + 1 < i < at + 6 :: s[i] == s[at + 2..at + 6][i - (at + 2)];
      match FourHex(s[at + 2..at + 6])
      case Some(c) => Some(Letter(c, 6))
      case None => None
    else None
  }

  /** The character spelled at `at`, with or without an escape. */
  function LetterAt(s: string, at: nat): (r: Option<Letter>)
    requires at < |s|
    ensures r.Some? ==> 1 <= r.value.width && at + r.value.width <= |s|
    ensures r.Some? ==> forall i | at <= i < at + r.value.width && s[i] == '"' :: at < i && r.value.stands == '"'
    ensures r.Some? && r.value.width == 1 ==> IsUnescaped(r.value.stands)
  {
    if s[at] == '\\' then EscapeAt(s, at)
    else if IsUnescaped(s[at]) then Some(Letter(s[at], 1))
    else None
  }

  /** The characters of a string and the index of its closing quote. */
  datatype Scanned = Unterminated | Scanned(text: string, end: nat)

  function ScanString(s: string, from: nat): (r: Scanned)
    ensures r.Scanned? ==> from <= r.end < |s| && s[r.end] == '"'
    decreases |s| - from
  {
    if from >= |s| then Unterminated
    else if s[from] == '"' then Scanned("", from)
    else
      match LetterAt(s, from)
      case None => Unterminated
      case Some(e) => Push(e.stands, ScanString(s, from + e.width))
  }

  function Push(c: char, r: Scanned): Scanned {
    if r.Scanned? then Scanned([c] + r.text, r.end) else Unterminated
  }

  function TruthName(b: bool): (r: string)
    ensures r != "" && r[0] == (if b then 't' else 'f')
  {
    if b then "true" else "false"
  }

  function Prepend(t: Token, rest: Option<seq<Token>>): Option<seq<Token>> {
    match rest case Some(ts) => Some([t] + ts) case None => None
  }

  function Lex(s: string): Option<seq<Token>>
    decreases |s|
  {
    if s == "" then Some([])
    else if IsWhitespace(s[0]) then Lex(s[1..])
    else if Structural(s[0]).Some? then Prepend(Structural(s[0]).value, Lex(s[1..]))
    else if s[0] == '"' then
      match ScanString(s, 1)
      case Unterminated => None
      case Scanned(text, end) => Prepend(Quote(text), Lex(s[end + 1..]))
    else if StartsWith(s, TruthName(true)) then Prepend(Truth(true), Lex(s[|TruthName(true)|..]))
    else if StartsWith(s, TruthName(false)) then Prepend(Truth(false), Lex(s[|TruthName(false)|..]))
    else None
  }

  // ------------------------------------------------------------------
  // Values
  // ------------------------------------------------------------------

  datatype Parsed<T> = Fail | Read(value: T, rest: seq<Token>)

  function ParseValue(t: seq<Token>): (r: Parsed<Value>)
    ensures r.Read? ==> |r.rest| < |t|
    decreases |t|, 0
  {
    if t == [] then Fail
    else
      match t[0]
      case Quote(s) => Read(Str(s), t[1..])
      case Truth(b) => Read(Bool(b), t[1..])
      case LBrace =>
        if |t| > 1 && t[1] == RBrace then Read(Obj([]), t[2..])
        else (match ParseMembers(t[1..]) case Read(ms, rest) => Read(Obj(ms), rest) case Fail => Fail)
      case LBracket =>
        if |t| > 1 && t[1] == RBracket then Read(Arr([]), t[2..])
        else (match ParseItems(t[1..]) case Read(vs, rest) => Read(Arr(vs), rest) case Fail => Fail)
      case _ => Fail
  }

  /** Members up to and with the closing brace. */
  function ParseMembers(t: seq<Token>): (r: Parsed<seq<Member>>)
    ensures r.Read? ==> |r.rest| < |t|
    decreases |t|, 1
  {
    if |t| < 2 || !t[0].Quote? || t[1] != Colon then Fail
    else
      var v := ParseValue(t[2..]);
      if v.Fail? || v.rest == [] then Fail
      else if v.rest[0] == RBrace then Read([Member(t[0].text, v.value)], v.rest[1..])
      else if v.rest[0] != Comma then Fail
      else
        var more := ParseMembers(v.rest[1..]);
        if more.Fail? then Fail else Read([Member(t[0].text, v.value)] + more.value, more.rest)
  }

  /** Items up to and with the closing bracket. */
  function ParseItems(t: seq<Token>): (r: Parsed<seq<Value>>)
    ensures r.Read? ==> |r.rest| < |t|
    decreases |t|, 1
  {
    var v := ParseValue(t);
    if v.Fail? || v.rest == [] then Fail
    else if v.rest[0] == RBracket then Read([v.value], v.rest[1..])
    else if v.rest[0] != Comma then Fail
    else
      var more := ParseItems(v.rest[1..]);
      if more.Fail? then Fail else Read([v.value] + more.value, more.rest)
  }

  /** A whole text: one value and nothing behind it. */
  function Parse(text: string): Option<Value> {
    match Lex(text)
    case None => None
    case Some(t) =>
      match ParseValue(t)
      case Fail => None
      case Read(v, rest) => if rest == [] then Some(v) else None
  }

  // ------------------------------------------------------------------
  // Any value, spelled in tokens, is read back
  // ------------------------------------------------------------------

  function TokensOf(v: Value): seq<Token>
    decreases v, 0
  {
    match v
    case Str(s) => [Quote(s)]
    case Bool(b) => [Truth(b)]
    case Obj(ms) => [LBrace] + MemberTokens(ms) + [RBrace]
    case Arr(vs) => [LBracket] + ItemTokens(vs) + [RBracket]
  }

  function MemberTokens(ms: seq<Member>): seq<Token>
    decreases ms, 1
  {
    if ms == [] then []
    else [Quote(ms[0].name), Colon] + TokensOf(ms[0].value)
         + (if |ms| == 1 then [] else [Comma] + MemberTokens(ms[1..]))
  }

  function ItemTokens(vs: seq<Value>): seq<Token>
    decreases vs, 1
  {
    if vs == [] then []
    else TokensOf(vs[0]) + (if |vs| == 1 then [] else [Comma] + ItemTokens(vs[1..]))
  }

  lemma {:induction false} ValueIsReadBack(v: Value, rest: seq<Token>)
    ensures ParseValue(TokensOf(v) + rest) == Read(v, rest)
    decreases v, 0
  {
    match v
    case Str(s) =>
      assert ([Quote(s)] + rest)[1..] == rest;
    case Bool(b) =>
      assert ([Truth(b)] + rest)[1..] == rest;
    case Obj(ms) =>
      var inside := MemberTokens(ms) + [RBrace] + rest;
      assert [LBrace] + MemberTokens(ms) + [RBrace] + rest == [LBrace] + inside;
      assert ([LBrace] + inside)[1..] == inside;
      if ms == [] {
        EmptyListIsRead(LBrace, RBrace, rest);
      } else {
        FirstMemberToken(ms);
        MembersAreReadBack(ms, rest);
      }
    case Arr(vs) =>
      var inside := ItemTokens(vs) + [RBracket] + rest;
      assert [LBracket] + ItemTokens(vs) + [RBracket] + rest == [LBracket] + inside;
      assert ([LBracket] + inside)[1..] == inside;
      if vs == [] {
        EmptyListIsRead(LBracket, RBracket, rest);
      } else {
        FirstItemToken(vs);
        ItemsAreReadBack(vs, rest);
      }
  }

  lemma EmptyListIsRead(open: Token, close: Token, rest: seq<Token>)
    ensures ([open] + [] + [close] + rest)[1] == close
    ensures ([open] + [] + [close] + rest)[2..] == rest
  {
  }

  lemma FirstMemberToken(ms: seq<Member>)
    requires ms != []
    ensures MemberTokens(ms) != [] && MemberTokens(ms)[0] == Quote(ms[0].name)
  {
  }

  lemma FirstTokenOf(v: Value)
    ensures TokensOf(v) != [] && TokensOf(v)[0] != RBracket
  {
  }

  lemma FirstItemToken(vs: seq<Value>)
    requires vs != []
    ensures ItemTokens(vs) != [] && ItemTokens(vs)[0] != RBracket
  {
    FirstTokenOf(vs[0]);
  }

  /** One member in front of a closing brace, or of a comma and more members. */
  lemma FirstMemberIsRead(name: string, t: seq<Token>, v: Value, behind: seq<Token>)
    requires ParseValue(t) == Read(v, behind) && behind != []
    ensures behind[0] == RBrace ==>
              ParseMembers([Quote(name), Colon] + t) == Read([Member(name, v)], behind[1..])
    ensures behind[0] == Comma && ParseMembers(behind[1..]).Read? ==>
              ParseMembers([Quote(name), Colon] + t)
              == Read([Member(name, v)] + ParseMembers(behind[1..]).value, ParseMembers(behind[1..]).rest)
  {
    assert ([Quote(name), Colon] + t)[2..] == t;
  }

  /** What stands behind one member or item: the end of the list, or a comma and the others. */
  function Behind(others: seq<Token>, close: Token, rest: seq<Token>): seq<Token> {
    if others == [] then [close] + rest else [Comma] + (others + [close] + rest)
  }

  lemma Regroup<T>(a: seq<T>, b: seq<T>, c: seq<T>, d: seq<T>, e: seq<T>)
    ensures a + b + (c + d) + e == a + (b + (c + (d + e)))
    ensures a + b + e == a + (b + e)
  {
  }

  lemma MembersUnfold(m: Member, others: seq<Member>, rest: seq<Token>)
    ensures MemberTokens([m] + others) + [RBrace] + rest
            == [Quote(m.name), Colon] + (TokensOf(m.value) + Behind(MemberTokens(others), RBrace, rest))
  {
    assert ([m] + others)[1..] == others;
    var head, tail := [Quote(m.name), Colon], [RBrace] + rest;
    Regroup(head, TokensOf(m.value), [Comma], MemberTokens(others), tail);
    if others == [] {
      assert head + TokensOf(m.value) + [] == head + TokensOf(m.value);
    } else {
      FirstMemberToken(others);
    }
    assert MemberTokens([m] + others) + [RBrace] + rest == MemberTokens([m] + others) + tail;
    assert MemberTokens(others) + [RBrace] + rest == MemberTokens(others) + tail;
  }

  lemma ItemsUnfold(v: Value, others: seq<Value>, rest: seq<Token>)
    ensures ItemTokens([v] + others) + [RBracket] + rest
            == TokensOf(v) + Behind(ItemTokens(others), RBracket, rest)
  {
    assert ([v] + others)[1..] == others;
    var tail := [RBracket] + rest;
    Regroup([], TokensOf(v), [Comma], ItemTokens(others), tail);
    if others == [] {
      assert TokensOf(v) + [] == TokensOf(v);
    } else {
      FirstItemToken(others);
    }
    assert ItemTokens([v] + others) + [RBracket] + rest == ItemTokens([v] + others) + tail;
    assert ItemTokens(others) + [RBracket] + rest == ItemTokens(others) + tail;
    assert [] + TokensOf(v) == TokensOf(v);
  }

  lemma {:induction false} MembersAreReadBack(ms: seq<Member>, rest: seq<Token>)
    requires ms != []
    ensures ParseMembers(MemberTokens(ms) + [RBrace] + rest) == Read(ms, rest)
    decreases ms, 1
  {
    var m, others := ms[0], ms[1..];
    var behind := Behind(MemberTokens(others), RBrace, rest);
    assert ms == [m] + others;
    MembersUnfold(m, others, rest);
    ValueIsReadBack(m.value, behind);
    FirstMemberIsRead(m.name, TokensOf(m.value) + behind, m.value, behind);
    if others == [] {
      assert behind[1..] == rest;
      assert [ms[0]] == ms;
    } else {
      FirstMemberToken(others);
      assert behind[1..] == MemberTokens(others) + [RBrace] + rest;
      MembersAreReadBack(others, rest);
    }
  }

  lemma {:induction false} ItemsAreReadBack(vs: seq<Value>, rest: seq<Token>)
    requires vs != []
    ensures ParseItems(ItemTokens(vs) + [RBracket] + rest) == Read(vs, rest)
    decreases vs, 1
  {
    var v, others := vs[0], vs[1..];
    var behind := Behind(ItemTokens(others), RBracket, rest);
    assert vs == [v] + others;
    ItemsUnfold(v, others, rest);
    ValueIsReadBack(v, behind);
    if others == [] {
      assert behind[1..] == rest;
      assert [vs[0]] == vs;
    } else {
      FirstItemToken(others);
      assert behind[1..] == ItemTokens(others) + [RBracket] + rest;
      ItemsAreReadBack(others, rest);
    }
  }

  /** The reader accepts nothing else: what it has consumed are the tokens of its result. */
  lemma {:induction false} ReadIsSpelled(t: seq<Token>)
    requires ParseValue(t).Read?
    ensures t == TokensOf(ParseValue(t).value) + ParseValue(t).rest
    decreases |t|, 0
  {
    if t[0].LBrace? {
      if |t| > 1 && t[1] == RBrace {
        assert t == [LBrace] + [] + [RBrace] + t[2..];
      } else {
        MembersAreSpelled(t[1..]);
        assert t == [LBrace] + t[1..];
      }
    } else if t[0].LBracket? {
      if |t| > 1 && t[1] == RBracket {
        assert t == [LBracket] + [] + [RBracket] + t[2..];
      } else {
        ItemsAreSpelled(t[1..]);
        assert t == [LBracket] + t[1..];
      }
    } else {
      assert t == [t[0]] + t[1..];
    }
  }

  lemma {:induction false} MembersAreSpelled(t: seq<Token>)
    requires ParseMembers(t).Read?
    ensures ParseMembers(t).value != []
    ensures t == MemberTokens(ParseMembers(t).value) + [RBrace] + ParseMembers(t).rest
    decreases |t|, 1
  {
    var v := ParseValue(t[2..]);
    var m := Member(t[0].text, v.value);
    ReadIsSpelled(t[2..]);
    assert t == [Quote(m.name), Colon] + t[2..];
    assert v.rest == [v.rest[0]] + v.rest[1..];
    if v.rest[0] == Comma {
      var more := ParseMembers(v.rest[1..]);
      MembersAreSpelled(v.rest[1..]);
      FirstMemberToken(more.value);
      MembersUnfold(m, more.value, more.rest);
    } else {
      MembersUnfold(m, [], v.rest[1..]);
      assert [m] + [] == [m];
    }
  }

  lemma {:induction false} ItemsAreSpelled(t: seq<Token>)
    requires ParseItems(t).Read?
    ensures ParseItems(t).value != []
    ensures t == ItemTokens(ParseItems(t).value) + [RBracket] + ParseItems(t).rest
    decreases |t|, 1
  {
    var v := ParseValue(t);
    ReadIsSpelled(t);
    assert v.rest == [v.rest[0]] + v.rest[1..];
    if v.rest[0] == Comma {
      var more := ParseItems(v.rest[1..]);
      ItemsAreSpelled(v.rest[1..]);
      FirstItemToken(more.value);
      ItemsUnfold(v.value, more.value, more.rest);
    } else {
      ItemsUnfold(v.value, [], v.rest[1..]);
      assert [v.value] + [] == [v.value];
    }
  }

  /** A text is JSON for a value exactly when it reads as the tokens of that value. */
  lemma ParsesIffTokensMatch(text: string, v: Value)
    ensures Parse(text) == Some(v) <==> Lex(text) == Some(TokensOf(v))
  {
    ValueIsReadBack(v, []);
    assert TokensOf(v) + [] == TokensOf(v);
    if Parse(text) == Some(v) {
      ReadIsSpelled(Lex(text).value);
    }
  }
}
