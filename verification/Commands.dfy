/** The texts the server works with: descriptors in decimal, and commands that start with an opcode. */
module Commands {

  // ----- decimal numbers -----

  predicate IsDigit(c: char) { '0' <= c <= '9' }

  function DigitValue(c: char): (v: nat)
    requires IsDigit(c)
  {
    (c as int - '0' as int) as nat
  }

  function DigitChar(d: nat): (c: char)
    requires d < 10
    ensures IsDigit(c) && DigitValue(c) == d
  {
    ('0' as int + d) as char
  }

  /** What snprintf writes for "%d" and a number from zero up. */
  function Decimal(n: nat): (r: string)
    ensures r != "" && forall i :: 0 <= i < |r| ==> IsDigit(r[i])
  {
    if n < 10 then [DigitChar(n)] else Decimal(n / 10) + [DigitChar(n % 10)]
  }

  /** The digits at the head of a text, after a number v read so far. */
  function ReadDigits(s: string, v: nat): nat {
    if s == "" || !IsDigit(s[0]) then v else ReadDigits(s[1..], 10 * v + DigitValue(s[0]))
  }

  lemma {:induction false} ReadDigitsThrough(a: string, rest: string, v: nat)
    requires forall i :: 0 <= i < |a| ==> IsDigit(a[i])
    ensures ReadDigits(a + rest, v) == ReadDigits(rest, ReadDigits(a, v))
  {
    if a == "" {
      assert a + rest == rest;
    } else {
      assert (a + rest)[1..] == a[1..] + rest;
      ReadDigitsThrough(a[1..], rest, 10 * v + DigitValue(a[0]));
    }
  }

  /** Reading back a number printed in decimal gives the number. */
  lemma {:induction false} DecimalRoundTrip(n: nat)
    ensures ReadDigits(Decimal(n), 0) == n
  {
    if n >= 10 {
      var d := [DigitChar(n % 10)];
      DecimalRoundTrip(n / 10);
      ReadDigitsThrough(Decimal(n / 10), d, 0);
      assert d[1..] == "";
      assert ReadDigits(d, n / 10) == ReadDigits("", 10 * (n / 10) + n % 10);
    } else {
      assert Decimal(n)[1..] == "";
    }
  }

  // ----- commands -----

  const CLOSECONN: int := 9

  /** What one read from a client gives: nothing, when it has gone, or a text. */
  datatype Received = Nothing | Text(text: string)

  datatype Fate = Answered | Left | Dropped

  function UpToSpace(text: string): string {
    if text == "" || text[0] == ' ' then "" else [text[0]] + UpToSpace(text[1..])
  }

  /** The first word, as strtok_r finds it. */
  function FirstWord(text: string): string {
    if text == "" then "" else if text[0] == ' ' then FirstWord(text[1..]) else UpToSpace(text)
  }

  /** What isspace holds of. */
  predicate IsWhite(c: char) {
    c == ' ' || c == '\t' || c == '\n' || c == '\r' || c == '\U{0B}' || c == '\U{0C}'
  }

  /** sscanf skips white space before a number; a word can hold any but the space. */
  function SkipWhite(word: string): string {
    if word != "" && IsWhite(word[0]) then SkipWhite(word[1..]) else word
  }

  /** The number at the head of a word; a word that has none leaves the number that was there before. */
  function NumberOf(word: string, previous: int): int {
    if word != "" && word[0] == '-' && |word| > 1 && IsDigit(word[1]) then -(ReadDigits(word[1..], 0) as int)
    else if word != "" && word[0] == '+' && |word| > 1 && IsDigit(word[1]) then ReadDigits(word[1..], 0)
    else if word != "" && IsDigit(word[0]) then ReadDigits(word, 0)
    else previous
  }

  /** The opcode of a word; a word that is no number leaves the opcode of the request before. */
  function Opcode(word: string, previous: int): int {
    NumberOf(SkipWhite(word), previous)
  }

  /** What becomes of a client after one read: only the ten opcodes have a branch. */
  function FateOf(r: Received, previous: int): Fate {
    match r
    case Nothing => Left
    case Text(text) =>
      var word := FirstWord(text);
      if word == "" then Dropped
      else
        var op := Opcode(word, previous);
        if op == CLOSECONN then Left else if 0 <= op < CLOSECONN then Answered else Dropped
  }

  predicate Blank(text: string) {
    forall i :: 0 <= i < |text| ==> text[i] == ' '
  }

  /** A text without a word, or whose opcode is none of the ten. */
  predicate Malformed(r: Received, previous: int) {
    r.Text? && (Blank(r.text) || !(0 <= Opcode(FirstWord(r.text), previous) <= CLOSECONN))
  }

  lemma {:induction false} NoWordIffBlank(text: string)
    ensures FirstWord(text) == "" <==> Blank(text)
  {
    if text != "" && text[0] == ' ' {
      NoWordIffBlank(text[1..]);
      assert forall i :: 0 <= i < |text[1..]| ==> text[1..][i] == text[i + 1];
      assert forall i :: 0 < i < |text| ==> text[i] == text[1..][i - 1];
    }
  }

  /** No branch serves a request exactly when it is malformed. */
  lemma DroppedIffMalformed(r: Received, previous: int)
    ensures FateOf(r, previous).Dropped? <==> Malformed(r, previous)
  {
    if r.Text? { NoWordIffBlank(r.text); }
  }

  lemma {:induction false} UpToSpaceIs(word: string, rest: string)
    requires forall i :: 0 <= i < |word| ==> word[i] != ' '
    requires rest == "" || rest[0] == ' '
    ensures UpToSpace(word + rest) == word
  {
    if word == "" {
      assert word + rest == rest;
    } else {
      assert (word + rest)[0] == word[0] && (word + rest)[1..] == word[1..] + rest;
      UpToSpaceIs(word[1..], rest);
    }
  }

  /** The first word is what stands between the spaces at the head of a text and the next space, or the end. */
  lemma {:induction false} FirstWordIs(spaces: string, word: string, rest: string)
    requires Blank(spaces) && word != "" && forall i :: 0 <= i < |word| ==> word[i] != ' '
    requires rest == "" || rest[0] == ' '
    ensures FirstWord(spaces + word + rest) == word
  {
    var text := spaces + word + rest;
    if spaces == "" {
      assert text == word + rest && text[0] == word[0];
      UpToSpaceIs(word, rest);
    } else {
      assert text[0] == ' ' && text[1..] == spaces[1..] + word + rest;
      FirstWordIs(spaces[1..], word, rest);
    }
  }

  lemma {:induction false} SkipsWhite(white: string, word: string)
    requires forall i :: 0 <= i < |white| ==> IsWhite(white[i])
    ensures SkipWhite(white + word) == SkipWhite(word)
  {
    if white == "" {
      assert white + word == word;
    } else {
      assert (white + word)[1..] == white[1..] + word;
      SkipsWhite(white[1..], word);
    }
  }

  /** The digits, and what isspace skips besides. */
  lemma CharactersAre(c: char)
    ensures IsDigit(c) <==> c in "0123456789"
    ensures IsWhite(c) <==> c in " \t\n\r\U{0B}\U{0C}"
  {
    var digits := "0123456789";
    if IsDigit(c) { assert digits[c as int - '0' as int] == c; }
    var white := " \t\n\r\U{0B}\U{0C}";
    assert white[0] == ' ' && white[1] == '\t' && white[2] == '\n' && white[3] == '\r' && white[4] == '\U{0B}' && white[5] == '\U{0C}';
  }

  /** A number is printed without a zero in front. */
  lemma {:induction false} DecimalPlain(n: nat)
    ensures Decimal(n)[0] == '0' ==> n == 0
  {
    if n >= 10 { DecimalPlain(n / 10); }
  }

  /** A signed number reads as itself. */
  lemma SignedRoundTrip(n: nat, previous: int)
    ensures NumberOf(Decimal(n), previous) == n && NumberOf("+" + Decimal(n), previous) == n
    ensures NumberOf("-" + Decimal(n), previous) == 0 - n
  {
    DecimalRoundTrip(n);
    assert ("+" + Decimal(n))[1..] == Decimal(n) && ("-" + Decimal(n))[1..] == Decimal(n);
  }

  /** A word leaves the opcode as it was, whatever it was, exactly if it does not begin with a number. */
  lemma KeptIff(word: string)
    ensures (forall previous: int :: Opcode(word, previous) == previous) <==>
      var w := SkipWhite(word);
      !(w != "" && (IsDigit(w[0]) || ((w[0] == '-' || w[0] == '+') && |w| > 1 && IsDigit(w[1]))))
  {
    var w := SkipWhite(word);
    if w != "" && (IsDigit(w[0]) || ((w[0] == '-' || w[0] == '+') && |w| > 1 && IsDigit(w[1]))) {
      var n := Opcode(word, 0);
      assert Opcode(word, n + 1) == n;
    }
  }

  /**
   * A command written as an opcode, and perhaps a space and arguments, is served by that opcode, whatever
   * came before, and even with spaces, tabs or line ends in front: the opcodes 0 to 8 are answered, 9 ends
   * the connection, and no other number is served.
   */
  lemma CommandRoundTrip(spaces: string, white: string, op: nat, arguments: string, previous: int)
    requires Blank(spaces) && forall i :: 0 <= i < |white| ==> white[i] in "\t\n\r\U{0B}\U{0C}"
    requires arguments == "" || arguments[0] == ' '
    ensures var text := spaces + (white + Decimal(op)) + arguments;
      && Opcode(FirstWord(text), previous) == op
      && FateOf(Text(text), previous) == if op <= 8 then Answered else if op == 9 then Left else Dropped
  {
    var digits, word := Decimal(op), white + Decimal(op);
    assert forall i :: 0 <= i < |word| ==> word[i] != ' ';
    FirstWordIs(spaces, word, arguments);
    SkipsWhite(white, digits);
    assert SkipWhite(digits) == digits && NumberOf(digits, previous) == ReadDigits(digits, 0);
    DecimalRoundTrip(op);
  }

  /** A client that has gone leaves. */
  lemma GoneLeaves(previous: int)
    ensures FateOf(Nothing, previous) == Left
  {
  }

  /** Whatever word is read, its opcode alone decides: 0 to 8 are answered, 9 leaves, any other is dropped. */
  lemma OtherFates(word: string, previous: int)
    requires word != "" && forall i :: 0 <= i < |word| ==> word[i] != ' '
    ensures var op := Opcode(word, previous);
      FateOf(Text(word), previous) == if 0 <= op <= 8 then Answered else if op == 9 then Left else Dropped
  {
    FirstWordIs("", word, "");
    assert "" + word + "" == word;
  }
}
