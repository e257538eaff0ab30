/** Quoted literals: the lexer callback that finds their end, and the decoder that reads
    their value. Text is a sequence of characters. */
module Quoting {
  import opened Tokens

  /** `u32`: arithmetic on it must not overflow. */
  newtype U32 = x: int | 0 <= x < 0x1_0000_0000

  predicate IsDelimiter(d: char) {
    d == '\'' || d == '"' || d == '`'
  }

  predicate IsHex(c: char) {
    '0' <= c <= '9' || 'a' <= c <= 'f' || 'A' <= c <= 'F'
  }

  function HexDigit(c: char): (r: U32)
    requires IsHex(c)
    ensures r < 16
  {
    if '0' <= c <= '9' then (c as int - '0' as int) as U32
    else if 'a' <= c <= 'f' then (c as int - 'a' as int + 10) as U32
    else (c as int - 'A' as int + 10) as U32
  }

  /** `char::from_u32` succeeds. */
  predicate IsScalar(x: U32) {
    x < 0xD800 || 0xE000 <= x < 0x11_0000
  }

  function Power16(n: nat): nat {
    if n == 0 then 1 else 16 * Power16(n - 1)
  }

  /** The characters from i to j are hexadecimal digits. */
  ghost predicate AllHex(text: string, i: nat, j: nat) {
    i <= j <= |text| && forall k :: i <= k < j ==> IsHex(text[k])
  }

  /** The number that the digits from i to j spell. */
  ghost function HexNumber(text: string, i: nat, j: nat): (r: nat)
    requires AllHex(text, i, j)
    ensures r < Power16(j - i)
    decreases j
  {
    if i == j then 0 else 16 * HexNumber(text, i, j - 1) + HexDigit(text[j - 1]) as nat
  }

  lemma Power16Small(n: nat)
    requires n <= 6
    ensures Power16(n) <= 0x100_0000
    ensures n < 6 ==> Power16(n) <= 0x10_0000
  {
    assert Power16(1) == 16 && Power16(2) == 0x100 && Power16(3) == 0x1000;
    assert Power16(4) == 0x1_0000;
    assert Power16(5) == 0x10_0000 && Power16(6) == 0x100_0000;
  }

  // ---------- the grammar of a literal ----------

  /** One item between the delimiters. */
  datatype Segment =
    | Plain(c: char)
    | Doubled
    | Simple(letter: char)
    | Unicode(isLong: bool, digits: string)

  predicate IsSimple(c: char) {
    c == '\\' || c == '\'' || c == '"' || c == '`' || c == 't' || c == 'b' || c == 'n' || c == 'r' || c == 'f'
  }

  function DigitCount(isLong: bool): nat {
    if isLong then 6 else 4
  }

  ghost predicate WellFormed(s: Segment, d: char) {
    match s
    case Plain(c) => c != d && c != '\\'
    case Doubled => true
    case Simple(letter) => IsSimple(letter)
    case Unicode(isLong, digits) =>
      |digits| == DigitCount(isLong) && AllHex(digits, 0, |digits|) && IsScalarNumber(HexNumber(digits, 0, |digits|))
  }

  predicate IsScalarNumber(x: nat) {
    x < 0xD800 || 0xE000 <= x < 0x11_0000
  }

  function Spell(s: Segment, d: char): (r: string)
    ensures r != ""
  {
    match s
    case Plain(c) => [c]
    case Doubled => [d, d]
    case Simple(letter) => ['\\', letter]
    case Unicode(isLong, digits) => ['\\', if isLong then 'U' else 'u'] + digits
  }

  function SpellAll(segments: seq<Segment>, d: char): string {
    if segments == [] then "" else Spell(segments[0], d) + SpellAll(segments[1..], d)
  }

  function SimpleMeaning(letter: char): char {
    if letter == 't' then '\t'
    else if letter == 'b' then '\U{0008}'
    else if letter == 'n' then '\n'
    else if letter == 'r' then '\r'
    else if letter == 'f' then '\U{000C}'
    else letter
  }

  /** The character an item stands for. */
  ghost function Meaning(s: Segment, d: char): char
    requires WellFormed(s, d)
  {
    match s
    case Plain(c) => c
    case Doubled => d
    case Simple(letter) => SimpleMeaning(letter)
    case Unicode(_, digits) => HexNumber(digits, 0, |digits|) as char
  }

  ghost predicate AllWellFormed(segments: seq<Segment>, d: char) {
    forall k :: 0 <= k < |segments| ==> WellFormed(segments[k], d)
  }

  ghost function MeaningAll(segments: seq<Segment>, d: char): (r: string)
    requires AllWellFormed(segments, d)
    ensures |r| == |segments|
  {
    if segments == [] then "" else [Meaning(segments[0], d)] + MeaningAll(segments[1..], d)
  }

  // ---------- finding the end ----------

  /** What `consume_quoted` reports, and how far it bumps the lexer. */
  datatype Lexed = Accepted(end: nat) | InvalidEscape(end: nat) | Unterminated

  /** How many of the next n characters are hexadecimal digits in a row. */
  function HexRun(text: string, i: nat, n: nat): (r: nat)
    requires i <= |text|
    ensures r <= n && i + r <= |text|
    ensures forall k :: i <= k < i + r ==> IsHex(text[k])
    ensures r < n && i + r < |text| ==> !IsHex(text[i + r])
    decreases n
  {
    if n > 0 && i < |text| && IsHex(text[i]) then 1 + HexRun(text, i + 1, n - 1) else 0
  }

  /** The escape whose letter is `u` or `U` at i is complete and names a scalar value. */
  ghost predicate IsGoodUnicode(text: string, i: nat)
    requires i < |text|
  {
    var n := DigitCount(text[i] == 'U');
    HexRun(text, i + 1, n) == n && IsScalarNumber(HexNumber(text, i + 1, i + 1 + n))
  }

  /** The index after the escape whose letter is at i. */
  function AfterEscape(text: string, i: nat): (r: nat)
    requires i < |text|
    ensures i < r <= |text|
  {
    if text[i] == 'u' || text[i] == 'U' then i + 1 + HexRun(text, i + 1, DigitCount(text[i] == 'U')) else i + 1
  }

  ghost predicate IsGoodEscape(text: string, i: nat)
    requires i < |text|
  {
    IsSimple(text[i]) || ((text[i] == 'u' || text[i] == 'U') && IsGoodUnicode(text, i))
  }

  predicate IsDoubled(text: string, d: char, i: nat) {
    i + 1 < |text| && text[i] == d && text[i + 1] == d
  }

  /** The walk from index i, when an invalid escape has been seen or not. */
  ghost function Consume(text: string, d: char, i: nat, invalid: bool): Lexed
    requires i <= |text|
    decreases |text| - i
  {
    if i == |text| then Unterminated
    else if text[i] == '\\' then
      if i + 1 == |text| then Unterminated
      else Consume(text, d, AfterEscape(text, i + 1), invalid || !IsGoodEscape(text, i + 1))
    else if IsDoubled(text, d, i) then Consume(text, d, i + 2, invalid)
    else if text[i] == d then if invalid then InvalidEscape(i + 1) else Accepted(i + 1)
    else Consume(text, d, i + 1, invalid)
  }

  /** `consume_quoted`. The opening delimiter ends at `start`. */
  method ConsumeQuoted(text: string, start: nat, d: char) returns (r: Lexed)
    requires start <= |text|
    ensures r == Consume(text, d, start, false)
  {
    var i: nat, invalid := start, false;
    while i < |text|
      invariant i <= |text| && Consume(text, d, start, false) == Consume(text, d, i, invalid)
      decreases |text| - i
    {
      var c := text[i];
      if c == '\\' {
        if i + 1 == |text| {
          return Unterminated;
        }
        var isGood;
        i, isGood := ConsumeEscape(text, i + 1);
        invalid := invalid || !isGood;
      } else if c == d {
        if i + 1 < |text| && text[i + 1] == d {
          i := i + 2;
        } else {
          return if invalid then InvalidEscape(i + 1) else Accepted(i + 1);
        }
      } else {
        i := i + 1;
      }
    }
    r := Unterminated;
  }

  /** The escape whose letter is at i. */
  method ConsumeEscape(text: string, i: nat) returns (next: nat, isGood: bool)
    requires i < |text|
    ensures next == AfterEscape(text, i) && isGood == IsGoodEscape(text, i)
  {
    var c := text[i];
    if IsSimple(c) {
      return i + 1, true;
    }
    if c != 'u' && c != 'U' {
      return i + 1, false;
    }
    var digits := if c == 'u' then 4 else 6;
    var n, scalar := ReadHex(text, i + 1, digits);
    return i + 1 + n, n == digits && IsScalar(scalar);
  }

  /** The digits from i to j make the number. */
  ghost predicate IsNumber(text: string, i: nat, j: nat, scalar: U32) {
    AllHex(text, i, j) && scalar as nat == HexNumber(text, i, j)
  }

  /** One more digit fits into 32 bits. */
  lemma NumberGrows(text: string, i: nat, j: nat, scalar: U32)
    requires IsNumber(text, i, j, scalar) && j - i < 6 && j < |text| && IsHex(text[j])
    ensures scalar as nat < 0x10_0000 && IsNumber(text, i, j + 1, scalar * 16 + HexDigit(text[j]))
  {
    Power16Small(j - i);
    assert HexNumber(text, i, j) < Power16(j - i);
    assert HexNumber(text, i, j + 1) == 16 * HexNumber(text, i, j) + HexDigit(text[j]) as nat;
  }

  /** Up to `digits` hexadecimal digits, peeking before each. */
  method ReadHex(text: string, i: nat, digits: nat) returns (n: nat, scalar: U32)
    requires i <= |text| && digits <= 6
    ensures n == HexRun(text, i, digits) && IsNumber(text, i, i + n, scalar)
  {
    n, scalar := 0, 0;
    while n < digits && i + n < |text| && IsHex(text[i + n])
      invariant n <= digits && IsNumber(text, i, i + n, scalar)
      decreases digits - n
    {
      NumberGrows(text, i, i + n, scalar);
      scalar := scalar * 16 + HexDigit(text[i + n]);
      n := n + 1;
    }
    ReadsAll(text, i, digits, n);
  }

  /** Digits that no further one follows, if more may be read, are the whole run. */
  lemma ReadsAll(text: string, i: nat, digits: nat, n: nat)
    requires n <= digits && AllHex(text, i, i + n)
    requires !(n < digits && i + n < |text| && IsHex(text[i + n]))
    ensures n == HexRun(text, i, digits)
  {
  }

  // ---------- the lexer accepts exactly the grammar ----------

  /** The text from i on starts with the word. */
  ghost predicate StartsWith(text: string, i: nat, word: string) {
    i + |word| <= |text| && forall k :: 0 <= k < |word| ==> text[i + k] == word[k]
  }

  lemma StartsWithConcat(text: string, i: nat, u: string, v: string)
    ensures StartsWith(text, i, u + v) <==> StartsWith(text, i, u) && StartsWith(text, i + |u|, v)
  {
    if StartsWith(text, i, u + v) {
      assert forall k :: 0 <= k < |u| ==> u[k] == (u + v)[k];
      forall k | 0 <= k < |v| ensures text[i + |u| + k] == v[k] {
        assert text[i + (|u| + k)] == (u + v)[|u| + k];
      }
    }
  }

  lemma {:induction false} HexRunFull(text: string, i: nat, n: nat)
    requires AllHex(text, i, i + n)
    ensures HexRun(text, i, n) == n
    decreases n
  {
    if n > 0 {
      HexRunFull(text, i + 1, n - 1);
    }
  }

  lemma HexRunIsHex(text: string, i: nat, n: nat)
    requires i <= |text|
    ensures AllHex(text, i, i + HexRun(text, i, n))
  {
  }

  /** The lexer passes over one well-formed item. */
  lemma ConsumeSegment(text: string, d: char, i: nat, s: Segment)
    requires IsDelimiter(d) && WellFormed(s, d) && StartsWith(text, i, Spell(s, d))
    ensures Consume(text, d, i, false) == Consume(text, d, i + |Spell(s, d)|, false)
  {
    if s.Unicode? {
      UnicodeSpelled(text, d, i, s);
    } else {
      var word := Spell(s, d);
      assert text[i + 0] == word[0];
      assert !s.Plain? ==> text[i + 1] == word[1];
    }
  }

  lemma UnicodeSpelled(text: string, d: char, i: nat, s: Segment)
    requires WellFormed(s, d) && s.Unicode? && StartsWith(text, i, Spell(s, d))
    ensures i + 1 < |text| && text[i] == '\\' && text[i + 1] == if s.isLong then 'U' else 'u'
    ensures IsGoodUnicode(text, i + 1) && AfterEscape(text, i + 1) == i + |Spell(s, d)|
  {
    var head := ['\\', if s.isLong then 'U' else 'u'];
    StartsWithConcat(text, i, head, s.digits);
    assert text[i + 0] == head[0] && text[i + 1] == head[1];
    DigitsSpelled(text, i + 2, s.digits);
  }

  lemma DigitsSpelled(text: string, i: nat, digits: string)
    requires AllHex(digits, 0, |digits|) && StartsWith(text, i, digits)
    ensures AllHex(text, i, i + |digits|) && HexRun(text, i, |digits|) == |digits|
    ensures HexNumber(text, i, i + |digits|) == HexNumber(digits, 0, |digits|)
  {
    DigitsShift(text, i, digits, |digits|);
    HexRunFull(text, i, |digits|);
  }

  lemma {:induction false} DigitsShift(text: string, i: nat, digits: string, n: nat)
    requires n <= |digits| && AllHex(digits, 0, |digits|) && StartsWith(text, i, digits)
    ensures AllHex(text, i, i + n) && HexNumber(text, i, i + n) == HexNumber(digits, 0, n)
    decreases n
  {
    forall k | i <= k < i + n ensures IsHex(text[k]) {
      assert text[i + (k - i)] == digits[k - i];
    }
    if n > 0 {
      DigitsShift(text, i, digits, n - 1);
      assert text[i + (n - 1)] == digits[n - 1];
    }
  }

  lemma ConsumeClose(text: string, d: char, i: nat)
    requires IsDelimiter(d) && i < |text| && text[i] == d && !IsDoubled(text, d, i)
    ensures Consume(text, d, i, false) == Accepted(i + 1)
  {
  }

  /** The walk without an invalid escape so far, as a function of the position. */
  ghost predicate IsWalk(text: string, d: char, walk: nat -> Lexed) {
    forall i: nat :: WalksAt(text, d, walk, i)
  }

  ghost predicate WalksAt(text: string, d: char, walk: nat -> Lexed, i: nat) {
    i <= |text| ==> walk(i) == Consume(text, d, i, false)
  }

  ghost function WalkOf(text: string, d: char): nat -> Lexed {
    (i: nat) => if i <= |text| then Consume(text, d, i, false) else Unterminated
  }

  lemma WalkSegment(text: string, d: char, walk: nat -> Lexed, i: nat, s: Segment)
    requires IsDelimiter(d) && IsWalk(text, d, walk) && WellFormed(s, d) && StartsWith(text, i, Spell(s, d))
    ensures walk(i) == walk(i + |Spell(s, d)|)
  {
    assert WalksAt(text, d, walk, i) && WalksAt(text, d, walk, i + |Spell(s, d)|);
    ConsumeSegment(text, d, i, s);
  }

  lemma WalkClose(text: string, d: char, walk: nat -> Lexed, i: nat)
    requires IsDelimiter(d) && IsWalk(text, d, walk) && i < |text| && text[i] == d && !IsDoubled(text, d, i)
    ensures walk(i) == Accepted(i + 1)
  {
    assert WalksAt(text, d, walk, i);
    ConsumeClose(text, d, i);
  }

  /** The first item and the others. */
  lemma HeadAndTail(text: string, d: char, i: nat, segments: seq<Segment>)
    requires segments != [] && AllWellFormed(segments, d) && StartsWith(text, i, SpellAll(segments, d))
    ensures WellFormed(segments[0], d) && StartsWith(text, i, Spell(segments[0], d))
    ensures AllWellFormed(segments[1..], d)
    ensures StartsWith(text, i + |Spell(segments[0], d)|, SpellAll(segments[1..], d))
    ensures |SpellAll(segments, d)| == |Spell(segments[0], d)| + |SpellAll(segments[1..], d)|
  {
    StartsWithConcat(text, i, Spell(segments[0], d), SpellAll(segments[1..], d));
  }

  lemma {:induction false} AcceptsGrammar(text: string, d: char, walk: nat -> Lexed, i: nat, segments: seq<Segment>)
    requires IsDelimiter(d) && IsWalk(text, d, walk)
    requires AllWellFormed(segments, d) && StartsWith(text, i, SpellAll(segments, d))
    requires ClosesAt(text, d, i + |SpellAll(segments, d)|)
    ensures walk(i) == Accepted(i + |SpellAll(segments, d)| + 1)
    decreases |segments|
  {
    if segments == [] {
      WalkClose(text, d, walk, i);
    } else {
      HeadAndTail(text, d, i, segments);
      WalkSegment(text, d, walk, i, segments[0]);
      AcceptsGrammar(text, d, walk, i + |Spell(segments[0], d)|, segments[1..]);
    }
  }

  /** A single delimiter. */
  predicate ClosesAt(text: string, d: char, i: nat) {
    i < |text| && text[i] == d && !IsDoubled(text, d, i)
  }

  lemma {:induction false} InvalidStays(text: string, d: char, i: nat)
    requires i <= |text|
    ensures !Consume(text, d, i, true).Accepted?
    decreases |text| - i
  {
    if i < |text| && text[i] == '\\' && i + 1 < |text| {
      InvalidStays(text, d, AfterEscape(text, i + 1));
    } else if i < |text| && IsDoubled(text, d, i) {
      InvalidStays(text, d, i + 2);
    } else if i < |text| && text[i] != d {
      InvalidStays(text, d, i + 1);
    }
  }

  /** An item starts at i, and it is no invalid escape. */
  ghost predicate HasItem(text: string, d: char, i: nat) {
    && i < |text|
    && (text[i] == '\\' ==> i + 1 < |text| && IsGoodEscape(text, i + 1))
    && (text[i] == d ==> IsDoubled(text, d, i))
  }

  lemma SegmentAt(text: string, d: char, i: nat) returns (s: Segment)
    requires IsDelimiter(d) && HasItem(text, d, i)
    ensures WellFormed(s, d) && StartsWith(text, i, Spell(s, d))
  {
    if text[i] == '\\' {
      if IsSimple(text[i + 1]) {
        s := Simple(text[i + 1]);
      } else {
        s := UnicodeAt(text, d, i);
      }
    } else if text[i] == d {
      s := Doubled;
    } else {
      s := Plain(text[i]);
    }
  }

  lemma UnicodeAt(text: string, d: char, i: nat) returns (s: Segment)
    requires i + 1 < |text| && text[i] == '\\' && (text[i + 1] == 'u' || text[i + 1] == 'U')
        && IsGoodUnicode(text, i + 1)
    ensures WellFormed(s, d) && StartsWith(text, i, Spell(s, d))
  {
    var isLong := text[i + 1] == 'U';
    var digits := text[i + 2..i + 2 + DigitCount(isLong)];
    s := Unicode(isLong, digits);
    HexRunIsHex(text, i + 2, DigitCount(isLong));
    DigitsShift(text, i + 2, digits, |digits|);
    UnicodeSpells(text, d, i, isLong, digits);
  }

  lemma UnicodeSpells(text: string, d: char, i: nat, isLong: bool, digits: string)
    requires i + 1 < |text| && text[i] == '\\' && text[i + 1] == if isLong then 'U' else 'u'
    requires StartsWith(text, i + 2, digits)
    ensures StartsWith(text, i, Spell(Unicode(isLong, digits), d))
  {
    StartsWithConcat(text, i, ['\\', text[i + 1]], digits);
  }

  /** An accepted walk meets an item or the end at every position. */
  lemma AcceptedStep(text: string, d: char, i: nat)
    requires IsDelimiter(d) && i <= |text| && Consume(text, d, i, false).Accepted?
    ensures ClosesAt(text, d, i) || HasItem(text, d, i)
  {
    if i + 1 < |text| && text[i] == '\\' {
      InvalidStays(text, d, AfterEscape(text, i + 1));
    }
  }

  lemma {:induction false} AcceptedIsGrammar(text: string, d: char, walk: nat -> Lexed, i: nat)
    returns (segments: seq<Segment>)
    requires IsDelimiter(d) && IsWalk(text, d, walk) && i <= |text| && walk(i).Accepted?
    ensures AllWellFormed(segments, d) && StartsWith(text, i, SpellAll(segments, d))
    ensures ClosesAt(text, d, i + |SpellAll(segments, d)|)
    ensures walk(i) == Accepted(i + |SpellAll(segments, d)| + 1)
    decreases |text| - i
  {
    assert WalksAt(text, d, walk, i);
    AcceptedStep(text, d, i);
    if ClosesAt(text, d, i) {
      segments := [];
      WalkClose(text, d, walk, i);
    } else {
      var s := SegmentAt(text, d, i);
      WalkSegment(text, d, walk, i, s);
      var rest := AcceptedIsGrammar(text, d, walk, i + |Spell(s, d)|);
      segments := [s] + rest;
      ConsItem(text, d, i, s, rest);
    }
  }

  lemma ConsItem(text: string, d: char, i: nat, s: Segment, rest: seq<Segment>)
    requires WellFormed(s, d) && AllWellFormed(rest, d)
    requires StartsWith(text, i, Spell(s, d)) && StartsWith(text, i + |Spell(s, d)|, SpellAll(rest, d))
    ensures AllWellFormed([s] + rest, d) && StartsWith(text, i, SpellAll([s] + rest, d))
    ensures |SpellAll([s] + rest, d)| == |Spell(s, d)| + |SpellAll(rest, d)|
  {
    assert ([s] + rest)[1..] == rest;
    StartsWithConcat(text, i, Spell(s, d), SpellAll(rest, d));
  }

  /** The literal up to the closing delimiter at `close` is spelled by these items. */
  ghost predicate IsLiteral(text: string, d: char, segments: seq<Segment>, close: nat) {
    && AllWellFormed(segments, d) && StartsWith(text, 0, SpellAll(segments, d)) && close == |SpellAll(segments, d)|
    && ClosesAt(text, d, close)
  }

  /** A literal is accepted up to an index exactly when well-formed items and one closing
      delimiter, not doubled, spell the text up to there. */
  lemma AcceptedIffLiteral(text: string, d: char, close: nat)
    requires IsDelimiter(d)
    ensures Consume(text, d, 0, false) == Accepted(close + 1)
        <==> exists segments :: IsLiteral(text, d, segments, close)
  {
    var walk := WalkOf(text, d);
    assert WalksAt(text, d, walk, 0);
    if Consume(text, d, 0, false) == Accepted(close + 1) {
      var segments := AcceptedIsGrammar(text, d, walk, 0);
      assert IsLiteral(text, d, segments, close);
    }
    if segments :| IsLiteral(text, d, segments, close) {
      AcceptsGrammar(text, d, walk, 0, segments);
    }
  }

  // ---------- the simple walk over quotes ----------

  /** A backslash hides the next character, and a doubled delimiter is one character. */
  function SimpleEnd(text: string, d: char, i: nat): (r: Option<nat>)
    requires i <= |text|
    ensures r.Some? ==> i < r.value <= |text|
    decreases |text| - i
  {
    if i == |text| then None
    else if text[i] == '\\' then if i + 1 < |text| then SimpleEnd(text, d, i + 2) else None
    else if IsDoubled(text, d, i) then SimpleEnd(text, d, i + 2)
    else if text[i] == d then Some(i + 1)
    else SimpleEnd(text, d, i + 1)
  }

  lemma {:induction false} SimpleOverHex(text: string, d: char, i: nat, n: nat)
    requires IsDelimiter(d) && AllHex(text, i, i + n)
    ensures SimpleEnd(text, d, i) == SimpleEnd(text, d, i + n)
    decreases n
  {
    if n > 0 {
      SimpleOverHex(text, d, i + 1, n - 1);
    }
  }

  function EndOf(lexed: Lexed): Option<nat> {
    match lexed
    case Accepted(end) => Some(end)
    case InvalidEscape(end) => Some(end)
    case Unterminated => None
  }

  /** The digits of Unicode escapes do not move the end. */
  lemma {:induction false} ConsumeIsSimple(text: string, d: char, i: nat, invalid: bool)
    requires IsDelimiter(d) && i <= |text|
    ensures EndOf(Consume(text, d, i, invalid)) == SimpleEnd(text, d, i)
    decreases |text| - i
  {
    if i < |text| {
      if text[i] == '\\' {
        if i + 1 < |text| {
          var next := AfterEscape(text, i + 1);
          ConsumeIsSimple(text, d, next, invalid || !IsGoodEscape(text, i + 1));
          SimpleOverHex(text, d, i + 2, next - (i + 2));
        }
      } else if IsDoubled(text, d, i) {
        ConsumeIsSimple(text, d, i + 2, invalid);
      } else if text[i] != d {
        ConsumeIsSimple(text, d, i + 1, invalid);
      }
    }
  }

  // ---------- what the lexer reports ----------

  /** Characters, doubled delimiters and escapes of any letter. */
  datatype Rough = Nil | Bare(rest: Rough) | Twin(rest: Rough) | Escaped(rest: Rough)

  function RoughWidth(r: Rough): nat {
    match r
    case Nil => 0
    case Bare(rest) => 1 + RoughWidth(rest)
    case Twin(rest) => 2 + RoughWidth(rest)
    case Escaped(rest) => 2 + RoughWidth(rest)
  }

  predicate RoughFits(text: string, d: char, i: nat, r: Rough)
    decreases r
  {
    match r
    case Nil => true
    case Bare(rest) => i < |text| && text[i] != d && text[i] != '\\' && RoughFits(text, d, i + 1, rest)
    case Twin(rest) => IsDoubled(text, d, i) && RoughFits(text, d, i + 2, rest)
    case Escaped(rest) => i + 1 < |text| && text[i] == '\\' && RoughFits(text, d, i + 2, rest)
  }

  /** A literal from i to the closing delimiter at `close`, if any letter may follow a backslash. */
  predicate IsRough(text: string, d: char, i: nat, r: Rough, close: nat) {
    RoughFits(text, d, i, r) && close == i + RoughWidth(r) && ClosesAt(text, d, close)
  }

  lemma {:induction false} PassesRough(text: string, d: char, i: nat, r: Rough)
    requires IsDelimiter(d) && i <= |text| && RoughFits(text, d, i, r)
    ensures i + RoughWidth(r) <= |text| && SimpleEnd(text, d, i) == SimpleEnd(text, d, i + RoughWidth(r))
    decreases r
  {
    match r
    case Nil =>
    case Bare(rest) => PassesRough(text, d, i + 1, rest);
    case Twin(rest) => PassesRough(text, d, i + 2, rest);
    case Escaped(rest) => PassesRough(text, d, i + 2, rest);
  }

  lemma {:induction false} ReadsRough(text: string, d: char, i: nat) returns (r: Rough)
    requires IsDelimiter(d) && i <= |text| && SimpleEnd(text, d, i).Some?
    ensures IsRough(text, d, i, r, SimpleEnd(text, d, i).value - 1)
    decreases |text| - i
  {
    if text[i] == '\\' {
      var rest := ReadsRough(text, d, i + 2);
      r := Escaped(rest);
    } else if IsDoubled(text, d, i) {
      var rest := ReadsRough(text, d, i + 2);
      r := Twin(rest);
    } else if text[i] == d {
      r := Nil;
    } else {
      var rest := ReadsRough(text, d, i + 1);
      r := Bare(rest);
    }
  }

  lemma SimpleIffRough(text: string, d: char, close: nat)
    requires IsDelimiter(d)
    ensures SimpleEnd(text, d, 0) == Some(close + 1) <==> exists r :: IsRough(text, d, 0, r, close)
  {
    if SimpleEnd(text, d, 0) == Some(close + 1) {
      var r := ReadsRough(text, d, 0);
      assert IsRough(text, d, 0, r, close);
    }
    forall r | IsRough(text, d, 0, r, close)
      ensures SimpleEnd(text, d, 0) == Some(close + 1)
    {
      PassesRough(text, d, 0, r);
    }
  }

  /** An invalid escape is reported exactly for a literal that closes there and is not well formed. */
  lemma InvalidIffRough(text: string, d: char, close: nat)
    requires IsDelimiter(d)
    ensures Consume(text, d, 0, false) == InvalidEscape(close + 1)
       <==> (exists r :: IsRough(text, d, 0, r, close)) && !(exists segments :: IsLiteral(text, d, segments, close))
  {
    ConsumeIsSimple(text, d, 0, false);
    SimpleIffRough(text, d, close);
    AcceptedIffLiteral(text, d, close);
  }

  /** A literal is unterminated exactly if it closes nowhere, whatever its escapes. */
  lemma UnterminatedIffOpen(text: string, d: char)
    requires IsDelimiter(d)
    ensures Consume(text, d, 0, false) == Unterminated <==> forall r, close :: !IsRough(text, d, 0, r, close)
  {
    ConsumeIsSimple(text, d, 0, false);
    forall r, close | IsRough(text, d, 0, r, close)
      ensures Consume(text, d, 0, false) != Unterminated
    {
      SimpleIffRough(text, d, close);
    }
    if Consume(text, d, 0, false) != Unterminated {
      SimpleIffRough(text, d, SimpleEnd(text, d, 0).value - 1);
    }
  }

  // ---------- decoding ----------

  /** Decoded text, and whether no fallback branch was taken. */
  datatype Decoded = Decoded(text: string, isClean: bool)

  /** The index after a `\u` or `\U` escape whose digits start at i: a bad digit is consumed. */
  function AfterDigits(inner: string, i: nat, n: nat): (r: nat)
    requires i <= |inner|
    ensures i <= r <= |inner|
  {
    var run := HexRun(inner, i, n);
    if run < n && i + run < |inner| then i + run + 1 else i + run
  }

  /** What one step of the decoder appends, where it goes on, and whether it is no fallback. */
  datatype Step = Step(output: string, next: nat, isClean: bool)

  ghost function UnicodeStep(inner: string, i: nat): (r: Step)
    requires i < |inner|
    ensures i < r.next <= |inner|
  {
    var n := DigitCount(inner[i] == 'U');
    if IsGoodUnicode(inner, i) then
      HexRunIsHex(inner, i + 1, n);
      Step([HexNumber(inner, i + 1, i + 1 + n) as char], i + 1 + n, true)
    else Step("", AfterDigits(inner, i + 1, n), false)
  }

  ghost function EscapeStep(inner: string, i: nat): (r: Step)
    requires i < |inner|
    ensures i < r.next <= |inner|
  {
    if IsSimple(inner[i]) then Step([SimpleMeaning(inner[i])], i + 1, true)
    else if inner[i] == 'u' || inner[i] == 'U' then UnicodeStep(inner, i)
    else Step(['\\', inner[i]], i + 1, false)
  }

  ghost function DecodeStep(inner: string, d: char, i: nat): (r: Step)
    requires i < |inner|
    ensures i < r.next <= |inner|
  {
    if IsDoubled(inner, d, i) then Step([d], i + 2, true)
    else if inner[i] != '\\' then Step([inner[i]], i + 1, true)
    else if i + 1 == |inner| then Step("\\", i + 1, false)
    else EscapeStep(inner, i + 1)
  }

  /** The decoder's steps by position. */
  type Stepper = nat -> Step

  ghost predicate Moves(step: Stepper, n: nat) {
    forall i: nat :: i < n ==> i < step(i).next <= n
  }

  ghost function DecodeFrom(step: Stepper, n: nat, i: nat): Decoded
    requires Moves(step, n) && i <= n
    decreases n - i
  {
    if i == n then Decoded("", true)
    else
      var rest := DecodeFrom(step, n, step(i).next);
      Decoded(step(i).output + rest.text, step(i).isClean && rest.isClean)
  }

  ghost function StepperOf(inner: string, d: char): Stepper {
    (i: nat) => if i < |inner| then DecodeStep(inner, d, i) else Step("", i + 1, true)
  }

  ghost predicate StepsAt(inner: string, d: char, step: Stepper, i: nat) {
    i < |inner| ==> step(i) == DecodeStep(inner, d, i)
  }

  ghost predicate IsStepper(inner: string, d: char, step: Stepper) {
    Moves(step, |inner|) && forall i: nat :: StepsAt(inner, d, step, i)
  }

  lemma StepperOfIsStepper(inner: string, d: char)
    ensures IsStepper(inner, d, StepperOf(inner, d))
  {
  }

  /** The text between the delimiters of a raw literal. */
  function Inner(raw: string): string {
    if |raw| >= 2 then raw[1..|raw| - 1] else ""
  }

  ghost function Decode(raw: string, d: char): Decoded {
    StepperOfIsStepper(Inner(raw), d);
    DecodeFrom(StepperOf(Inner(raw), d), |Inner(raw)|, 0)
  }

  /** `decode_delimited`, which also tells whether it took no fallback branch. */
  method DecodeDelimited(raw: string, d: char) returns (r: Decoded)
    ensures r == Decode(raw, d)
  {
    StepperOfIsStepper(Inner(raw), d);
    r := DecodeInner(Inner(raw), d, StepperOf(Inner(raw), d));
  }

  method DecodeInner(inner: string, d: char, ghost step: Stepper) returns (r: Decoded)
    requires IsStepper(inner, d, step)
    ensures r == DecodeFrom(step, |inner|, 0)
  {
    var i, decoded, isClean := 0, "", true;
    ghost var answer := DecodeFrom(step, |inner|, 0);
    while i < |inner|
      invariant i <= |inner|
      invariant answer.text == decoded + DecodeFrom(step, |inner|, i).text
      invariant answer.isClean == (isClean && DecodeFrom(step, |inner|, i).isClean)
      decreases |inner| - i
    {
      var output, next, ok := DecodeOne(inner, d, i);
      assert StepsAt(inner, d, step, i);
      decoded, isClean, i := decoded + output, isClean && ok, next;
    }
    r := Decoded(decoded, isClean);
  }

  /** One turn of the decoder. */
  method DecodeOne(inner: string, d: char, i: nat) returns (output: string, next: nat, isClean: bool)
    requires i < |inner|
    ensures Step(output, next, isClean) == DecodeStep(inner, d, i)
  {
    var c := inner[i];
    if c == d && i + 1 < |inner| && inner[i + 1] == d {
      return [d], i + 2, true;
    }
    if c != '\\' {
      return [c], i + 1, true;
    }
    if i + 1 == |inner| {
      return "\\", i + 1, false;
    }
    var escaped := inner[i + 1];
    if IsSimple(escaped) {
      return [SimpleMeaning(escaped)], i + 2, true;
    }
    if escaped != 'u' && escaped != 'U' {
      return ['\\', escaped], i + 2, false;
    }
    output, next, isClean := DecodeUnicode(inner, i + 1);
  }

  method DecodeUnicode(inner: string, i: nat) returns (output: string, next: nat, isClean: bool)
    requires i < |inner| && (inner[i] == 'u' || inner[i] == 'U')
    ensures Step(output, next, isClean) == UnicodeStep(inner, i)
  {
    var digits := if inner[i] == 'u' then 4 else 6;
    var n, scalar := ReadHex(inner, i + 1, digits);
    if n == digits && IsScalar(scalar) {
      return [scalar as char], i + 1 + n, true;
    }
    next := if n < digits && i + 1 + n < |inner| then i + 1 + n + 1 else i + 1 + n;
    return "", next, false;
  }

  // ---------- the decoder agrees with the lexer ----------

  /** The decoder reads one well-formed item as its meaning, without a fallback. */
  lemma DecodeSegment(inner: string, d: char, i: nat, s: Segment)
    requires IsDelimiter(d) && WellFormed(s, d) && StartsWith(inner, i, Spell(s, d))
    ensures i < |inner| && DecodeStep(inner, d, i) == Step([Meaning(s, d)], i + |Spell(s, d)|, true)
  {
    if s.Unicode? {
      DecodeUnicodeSegment(inner, d, i, s);
    } else {
      var word := Spell(s, d);
      assert inner[i + 0] == word[0];
      assert !s.Plain? ==> inner[i + 1] == word[1];
    }
  }

  lemma DecodeUnicodeSegment(inner: string, d: char, i: nat, s: Segment)
    requires IsDelimiter(d) && s.Unicode? && WellFormed(s, d) && StartsWith(inner, i, Spell(s, d))
    ensures i < |inner| && DecodeStep(inner, d, i) == Step([Meaning(s, d)], i + |Spell(s, d)|, true)
  {
    UnicodeSpelled(inner, d, i, s);
    StartsWithConcat(inner, i, ['\\', if s.isLong then 'U' else 'u'], s.digits);
    DigitsSpelled(inner, i + 2, s.digits);
  }

  lemma {:induction false} DecodesGrammar(inner: string, d: char, step: Stepper, i: nat, segments: seq<Segment>)
    requires IsDelimiter(d) && IsStepper(inner, d, step) && AllWellFormed(segments, d)
    requires StartsWith(inner, i, SpellAll(segments, d)) && i + |SpellAll(segments, d)| == |inner|
    ensures DecodeFrom(step, |inner|, i) == Decoded(MeaningAll(segments, d), true)
    decreases |segments|
  {
    if segments != [] {
      HeadAndTail(inner, d, i, segments);
      DecodeSegment(inner, d, i, segments[0]);
      assert StepsAt(inner, d, step, i);
      DecodesGrammar(inner, d, step, i + |Spell(segments[0], d)|, segments[1..]);
    }
  }

  /** The spelled items between two delimiters decode to what they mean. */
  lemma DecodesSpelling(segments: seq<Segment>, d: char)
    requires IsDelimiter(d) && AllWellFormed(segments, d)
    ensures Decode([d] + SpellAll(segments, d) + [d], d) == Decoded(MeaningAll(segments, d), true)
  {
    var inner := SpellAll(segments, d);
    assert Inner([d] + inner + [d]) == inner;
    StepperOfIsStepper(inner, d);
    DecodesGrammar(inner, d, StepperOf(inner, d), 0, segments);
  }

  lemma LiteralText(text: string, d: char, segments: seq<Segment>, close: nat)
    requires IsLiteral(text, d, segments, close)
    ensures [d] + text[..close + 1] == [d] + SpellAll(segments, d) + [d]
  {
    assert text[..close + 1] == SpellAll(segments, d) + [d];
  }

  /** Whatever the lexer accepts decodes without a fallback, item by item as the lexer walked
      it, each item to one character. */
  lemma AcceptedDecodesCleanly(text: string, d: char) returns (segments: seq<Segment>)
    requires IsDelimiter(d) && Consume(text, d, 0, false).Accepted?
    ensures IsLiteral(text, d, segments, |SpellAll(segments, d)|)
    ensures Consume(text, d, 0, false) == Accepted(|SpellAll(segments, d)| + 1)
    ensures Decode([d] + text[..|SpellAll(segments, d)| + 1], d) == Decoded(MeaningAll(segments, d), true)
  {
    segments := AcceptedSegments(text, d, Consume(text, d, 0, false).end);
    LiteralText(text, d, segments, |SpellAll(segments, d)|);
    DecodesSpelling(segments, d);
  }

  lemma AcceptedSegments(text: string, d: char, end: nat) returns (segments: seq<Segment>)
    requires IsDelimiter(d) && Consume(text, d, 0, false) == Accepted(end)
    ensures IsLiteral(text, d, segments, |SpellAll(segments, d)|) && end == |SpellAll(segments, d)| + 1
  {
    var walk := WalkOf(text, d);
    assert WalksAt(text, d, walk, 0);
    segments := AcceptedIsGrammar(text, d, walk, 0);
  }

  // ---------- round trip ----------

  /** Doubling the delimiter and the backslash. */
  function Quote(text: string, d: char): string {
    if text == "" then ""
    else (if text[0] == d || text[0] == '\\' then [text[0], text[0]] else [text[0]]) + Quote(text[1..], d)
  }

  function ItemsOf(text: string, d: char): seq<Segment> {
    if text == "" then []
    else
      var item := if text[0] == d then Doubled else if text[0] == '\\' then Simple('\\') else Plain(text[0]);
      [item] + ItemsOf(text[1..], d)
  }

  lemma {:induction false} QuoteIsSpelled(text: string, d: char)
    requires IsDelimiter(d)
    ensures AllWellFormed(ItemsOf(text, d), d)
    ensures SpellAll(ItemsOf(text, d), d) == Quote(text, d)
    ensures MeaningAll(ItemsOf(text, d), d) == text
  {
    if text != "" {
      QuoteIsSpelled(text[1..], d);
      assert ItemsOf(text, d)[1..] == ItemsOf(text[1..], d);
    }
  }

  /** Well-formed items before a single closing delimiter are accepted. */
  lemma SpellingAccepted(segments: seq<Segment>, d: char, rest: string)
    requires IsDelimiter(d) && AllWellFormed(segments, d) && (rest == "" || rest[0] != d)
    ensures Consume(SpellAll(segments, d) + [d] + rest, d, 0, false) == Accepted(|SpellAll(segments, d)| + 1)
  {
    var word := SpellAll(segments, d);
    var source := word + [d] + rest;
    assert StartsWith(source, 0, word);
    assert source[|word|] == d && (rest != "" ==> source[|word| + 1] == rest[0]);
    assert IsLiteral(source, d, segments, |word|);
    AcceptedIffLiteral(source, d, |word|);
  }

  /** For every text: its quoted spelling is consumed exactly, up to the closing delimiter,
      and decodes back to the text. */
  lemma QuoteRoundTrip(text: string, d: char, rest: string)
    requires IsDelimiter(d) && (rest == "" || rest[0] != d)
    ensures Consume(Quote(text, d) + [d] + rest, d, 0, false) == Accepted(|Quote(text, d)| + 1)
    ensures Decode([d] + Quote(text, d) + [d], d) == Decoded(text, true)
  {
    QuoteIsSpelled(text, d);
    DecodesSpelling(ItemsOf(text, d), d);
    SpellingAccepted(ItemsOf(text, d), d, rest);
  }

  // ---------- what the escapes stand for ----------

  /** The letters behind a backslash, and the characters they stand for. */
  const ESCAPES: map<char, char> := map[
    '\\' := '\\', '\'' := '\'', '"' := '"', '`' := '`',
    't' := '\t', 'b' := '\U{0008}', 'n' := '\n', 'r' := '\r', 'f' := '\U{000C}']

  /** A literal of one short escape is accepted exactly for the listed letters, and decodes to
      the listed character. */
  lemma ShortEscapes(d: char, letter: char)
    requires IsDelimiter(d) && letter != 'u' && letter != 'U'
    ensures Consume(['\\', letter, d], d, 0, false) == if letter in ESCAPES then Accepted(3) else InvalidEscape(3)
    ensures letter in ESCAPES ==> Decode([d, '\\', letter, d], d) == Decoded([ESCAPES[letter]], true)
  {
    var text := ['\\', letter, d];
    assert Consume(text, d, 2, true) == InvalidEscape(3) && Consume(text, d, 2, false) == Accepted(3);
    if letter in ESCAPES {
      var segments := [Simple(letter)];
      assert SpellAll(segments, d) == ['\\', letter] by {
        assert segments[1..] == [];
      }
      assert MeaningAll(segments, d) == [ESCAPES[letter]] by {
        assert segments[1..] == [];
      }
      DecodesSpelling(segments, d);
      assert [d] + SpellAll(segments, d) + [d] == [d, '\\', letter, d];
    }
  }

  /** The digits in order, small and capital. */
  lemma HexDigitsCount(k: nat)
    requires k < 16
    ensures var small, capital := "0123456789abcdef"[k], "0123456789ABCDEF"[k];
            IsHex(small) && IsHex(capital) && HexDigit(small) as nat == k && HexDigit(capital) as nat == k
  {
  }
}
