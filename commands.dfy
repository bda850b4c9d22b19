/** Reading one input line: split at the first space, fold the command word
    to lower case, parse a decimal position, and decide which request the line
    makes or why it is rejected. */
module Commands {

  datatype Option<T> = None | Some(value: T)

  datatype Result<T, E> = Ok(value: T) | Err(error: E)

  /** What a well-formed line asks for. Positions are already 0-based indices. */
  datatype Request =
    | Add(name: string)
    | List
    | Complete(index: int)
    | Delete(index: int)
    | Quit

  /** Why a line is turned away before any task operation runs. */
  datatype Rejection = MissingName | MissingNumber | InvalidNumber | UnknownCommand

  // ---------------------------------------------------------------------------
  // Splitting at the first single space (SplitN with a limit of two parts)
  // ---------------------------------------------------------------------------

  /** The text before the first space, and the text after it if there is a space. */
  function SplitFirstSpace(line: string): (r: (string, Option<string>))
    ensures r.1.None? ==> ' ' !in line && r.0 == line
    ensures r.1.Some? ==> ' ' !in r.0 && line == r.0 + " " + r.1.value
    decreases |line|
  {
    if |line| == 0 then ("", None)
    else if line[0] == ' ' then ("", Some(line[1..]))
    else
      var (word, rest) := SplitFirstSpace(line[1..]);
      assert line == [line[0]] + line[1..];
      ([line[0]] + word, rest)
  }

  /** A line made of a space-free word, a space and any remainder splits back
      into exactly that word and that remainder, spaces in the remainder included. */
  lemma {:induction false} SplitAtSpace(word: string, rest: string)
    requires ' ' !in word
    ensures SplitFirstSpace(word + " " + rest) == (word, Some(rest))
    decreases |word|
  {
    var line := word + " " + rest;
    if |word| > 0 {
      assert line[0] == word[0];
      assert line[1..] == word[1..] + " " + rest;
      SplitAtSpace(word[1..], rest);
      assert [word[0]] + word[1..] == word;
    } else {
      assert line == [' '] + rest;
    }
  }

  // ---------------------------------------------------------------------------
  // Lower-casing the command word
  // ---------------------------------------------------------------------------

  /** The lower case of one character, as far as it can produce a small ASCII
      letter: the ASCII capitals, and the only two other characters whose
      Unicode lower case is an ASCII letter (dotted capital I, U+0130, gives
      'i'; the Kelvin sign, U+212A, gives 'k'). Every other character is kept. */
  function LowerChar(c: char): char
  {
    if 'A' <= c <= 'Z' then (c as int + 32) as char
    else if c == '\U{0130}' then 'i'
    else if c == '\U{212A}' then 'k'
    else c
  }

  function UpperChar(c: char): char
  {
    if 'a' <= c <= 'z' then (c as int - 32) as char else c
  }

  /** The word with every character replaced by its LowerChar. */
  function Lower(s: string): (r: string)
    ensures |r| == |s|
    ensures forall i :: 0 <= i < |s| ==> r[i] == LowerChar(s[i])
    decreases |s|
  {
    if |s| == 0 then "" else [LowerChar(s[0])] + Lower(s[1..])
  }

  /** A keyword of the command language: small ASCII letters only. */
  predicate IsKeyword(kw: string)
  {
    forall i :: 0 <= i < |kw| ==> 'a' <= kw[i] <= 'z'
  }

  /** c is the small letter k itself, its ASCII capital, or the one other
      character that lower-cases to it. */
  predicate CaseVariant(c: char, k: char)
  {
    c == k || c == UpperChar(k) || (k == 'i' && c == '\U{0130}') || (k == 'k' && c == '\U{212A}')
  }

  /** w spells kw with each letter in any of its case variants. */
  predicate SpellsIgnoringCase(w: string, kw: string)
  {
    |w| == |kw| && forall i :: 0 <= i < |w| ==> CaseVariant(w[i], kw[i])
  }

  /** The lower-cased word equals a keyword exactly when the word spells the
      keyword with letters in any case. */
  lemma LowerMatchesKeyword(w: string, kw: string)
    requires IsKeyword(kw)
    ensures Lower(w) == kw <==> SpellsIgnoringCase(w, kw)
  {
    if SpellsIgnoringCase(w, kw) {
      forall i | 0 <= i < |w| ensures Lower(w)[i] == kw[i] {
        assert LowerChar(UpperChar(kw[i])) == kw[i];
      }
    }
    if Lower(w) == kw {
      forall i | 0 <= i < |w| ensures CaseVariant(w[i], kw[i]) {
        assert LowerChar(w[i]) == kw[i];
      }
    }
  }

  // ---------------------------------------------------------------------------
  // Decimal integers: optional sign followed by one or more digits
  // ---------------------------------------------------------------------------

  predicate IsDigit(c: char)
  {
    '0' <= c <= '9'
  }

  predicate AllDigits(s: string)
  {
    forall i :: 0 <= i < |s| ==> IsDigit(s[i])
  }

  /** The syntax the parser accepts: an optional '+' or '-', then at least one digit. */
  predicate IsDecimal(s: string)
  {
    var digits := if |s| > 0 && (s[0] == '+' || s[0] == '-') then s[1..] else s;
    |digits| > 0 && AllDigits(digits)
  }

  function DigitValue(c: char): nat
    requires IsDigit(c)
  {
    c as int - '0' as int
  }

  function DigitChar(d: nat): char
    requires d < 10
  {
    ('0' as int + d) as char
  }

  /** The value of a digit string, the last digit the least significant. */
  function DigitsValue(s: string): nat
    requires AllDigits(s)
    decreases |s|
  {
    if |s| == 0 then 0 else DigitsValue(s[..|s| - 1]) * 10 + DigitValue(s[|s| - 1])
  }

  /** The decimal parse of a line's remainder: a value exactly for the strings
      IsDecimal accepts, nothing for every other string. */
  function ParseDecimal(s: string): (r: Option<int>)
    ensures r.Some? <==> IsDecimal(s)
  {
    if |s| > 0 && (s[0] == '+' || s[0] == '-') then
      if |s| > 1 && AllDigits(s[1..]) then
        var magnitude: int := DigitsValue(s[1..]);
        Some(if s[0] == '-' then -magnitude else magnitude)
      else None
    else if |s| > 0 && AllDigits(s) then Some(DigitsValue(s))
    else None
  }

  /** The shortest decimal digits of n. */
  function NatDigits(n: nat): (r: string)
    ensures |r| > 0 && AllDigits(r)
    decreases n
  {
    if n < 10 then [DigitChar(n)] else NatDigits(n / 10) + [DigitChar(n % 10)]
  }

  /** How a position is written: digits, with a '-' in front when negative. */
  function Decimal(n: int): string
  {
    if n < 0 then "-" + NatDigits(-n) else NatDigits(n)
  }

  lemma {:induction false} NatDigitsRoundTrip(n: nat)
    ensures DigitsValue(NatDigits(n)) == n
    decreases n
  {
    var s := NatDigits(n);
    if n >= 10 {
      NatDigitsRoundTrip(n / 10);
      assert s[..|s| - 1] == NatDigits(n / 10);
      assert s[|s| - 1] == DigitChar(n % 10);
    }
  }

  predicate AllZeros(z: string)
  {
    forall i :: 0 <= i < |z| ==> z[i] == '0'
  }

  lemma {:induction false} ZerosValue(z: string)
    requires AllZeros(z)
    ensures AllDigits(z) && DigitsValue(z) == 0
    decreases |z|
  {
    if |z| > 0 {
      ZerosValue(z[..|z| - 1]);
    }
  }

  /** Leading zeros do not change the value of a digit string. */
  lemma {:induction false} LeadingZeros(z: string, d: string)
    requires AllZeros(z) && AllDigits(d)
    ensures AllDigits(z + d) && DigitsValue(z + d) == DigitsValue(d)
    decreases |d|
  {
    if |d| == 0 {
      assert z + d == z;
      ZerosValue(z);
    } else {
      LeadingZeros(z, d[..|d| - 1]);
      assert (z + d)[..|z + d| - 1] == z + d[..|d| - 1];
    }
  }

  /** Every writing the parser accepts for a given value reads as that value:
      any number of leading zeros, an optional '+' in front, and with a '-' in
      front the negated value ("-0" and "-00" included). */
  lemma ParseDecimalPadded(z: string, n: nat)
    requires AllZeros(z)
    ensures ParseDecimal(z + NatDigits(n)) == Some(n)
    ensures ParseDecimal("+" + z + NatDigits(n)) == Some(n)
    ensures ParseDecimal("-" + z + NatDigits(n)) == Some(-(n as int))
  {
    var d := z + NatDigits(n);
    NatDigitsRoundTrip(n);
    LeadingZeros(z, NatDigits(n));
    assert IsDigit(d[0]);
    SignedDigits('+', d);
    SignedDigits('-', d);
    assert "+" + z + NatDigits(n) == ['+'] + d;
    assert "-" + z + NatDigits(n) == ['-'] + d;
  }

  lemma SignedDigits(sign: char, d: string)
    requires sign == '+' || sign == '-'
    requires |d| > 0 && AllDigits(d)
    ensures ParseDecimal([sign] + d) == Some(if sign == '-' then -(DigitsValue(d) as int) else DigitsValue(d))
  {
    assert ([sign] + d)[1..] == d;
  }

  /** Parsing the written form of any integer gives that integer back. */
  lemma DecimalRoundTrip(n: int)
    ensures ParseDecimal(Decimal(n)) == Some(n)
  {
    if n < 0 {
      NatDigitsRoundTrip(-n);
      assert Decimal(n)[1..] == NatDigits(-n);
    } else {
      NatDigitsRoundTrip(n);
      assert IsDigit(Decimal(n)[0]);
    }
  }

  // ---------------------------------------------------------------------------
  // One line to one request
  // ---------------------------------------------------------------------------

  /** The command word of a line: the text before its first space, lower-cased. */
  function CommandWord(line: string): string
  {
    Lower(SplitFirstSpace(line).0)
  }

  /** The command word is the lower-cased first space-free stretch of the line:
      every character before it is not a space, and a space follows it unless
      it runs to the end of the line. */
  lemma CommandWordMeaning(line: string)
    ensures |CommandWord(line)| <= |line|
    ensures forall i :: 0 <= i < |CommandWord(line)| ==> line[i] != ' ' && CommandWord(line)[i] == LowerChar(line[i])
    ensures |CommandWord(line)| < |line| ==> line[|CommandWord(line)|] == ' '
  {
    var (word, rest) := SplitFirstSpace(line);
    assert rest.Some? ==> line[..|word|] == word && line[|word|] == ' ';
  }

  /** The request a line makes, or why it is turned away. The command word is
      matched after lower-casing; a remainder after `list` or `exit` is ignored;
      a position n addresses index n - 1. */
  function Parse(line: string): Result<Request, Rejection>
  {
    var rest := SplitFirstSpace(line).1;
    var command := CommandWord(line);
    if command == "add" then
      if rest.None? then Err(MissingName) else Ok(Add(rest.value))
    else if command == "list" then
      Ok(List)
    else if command == "complete" then
      if rest.None? then Err(MissingNumber)
      else match ParseDecimal(rest.value)
        case None => Err(InvalidNumber)
        case Some(num) => Ok(Complete(num - 1))
    else if command == "delete" then
      if rest.None? then Err(MissingNumber)
      else match ParseDecimal(rest.value)
        case None => Err(InvalidNumber)
        case Some(num) => Ok(Delete(num - 1))
    else if command == "exit" then
      Ok(Quit)
    else
      Err(UnknownCommand)
  }

  /** What a parsed request means for its line: `list` and `exit` exactly for
      those command words; an added name is everything after the first space;
      a position is one less than the number after the first space; and only
      the five keywords give a request at all. */
  lemma ParseMeaning(line: string)
    ensures Parse(line) == Ok(List) <==> CommandWord(line) == "list"
    ensures Parse(line) == Ok(Quit) <==> CommandWord(line) == "exit"
    ensures Parse(line).Ok? && Parse(line).value.Add? ==>
              CommandWord(line) == "add" && line == SplitFirstSpace(line).0 + " " + Parse(line).value.name
    ensures Parse(line).Ok? && (Parse(line).value.Complete? || Parse(line).value.Delete?) ==>
              SplitFirstSpace(line).1.Some?
              && ParseDecimal(SplitFirstSpace(line).1.value) == Some(Parse(line).value.index + 1)
    ensures Parse(line).Ok? && Parse(line).value.Complete? ==> CommandWord(line) == "complete"
    ensures Parse(line).Ok? && Parse(line).value.Delete? ==> CommandWord(line) == "delete"
    ensures Parse(line).Ok? ==> CommandWord(line) in {"add", "list", "complete", "delete", "exit"}
  {
  }

  /** `add` followed by a space asks to add the whole remainder as the name:
      further spaces, leading spaces and the empty remainder included. */
  lemma ParseAddTakesRemainder(word: string, name: string)
    requires ' ' !in word && Lower(word) == "add"
    ensures Parse(word + " " + name) == Ok(Add(name))
  {
    SplitAtSpace(word, name);
  }

  /** `add` with no space in the line is turned away for want of a name. */
  lemma ParseAddWithoutName(line: string)
    requires ' ' !in line && Lower(line) == "add"
    ensures Parse(line) == Err(MissingName)
  {
  }

  /** `complete` or `delete` with no space in the line is turned away for want of a number. */
  lemma ParsePositionMissing(line: string)
    requires ' ' !in line && (Lower(line) == "complete" || Lower(line) == "delete")
    ensures Parse(line) == Err(MissingNumber)
  {
  }

  /** A remainder that is not a decimal integer is turned away. */
  lemma ParsePositionNotNumber(word: string, rest: string)
    requires ' ' !in word && (Lower(word) == "complete" || Lower(word) == "delete")
    requires !IsDecimal(rest)
    ensures Parse(word + " " + rest) == Err(InvalidNumber)
  {
    SplitAtSpace(word, rest);
  }

  /** A remainder that reads as n addresses the 0-based index n - 1. */
  lemma ParsePositionIsOneBased(word: string, rest: string, n: int)
    requires ' ' !in word && ParseDecimal(rest) == Some(n)
    ensures Lower(word) == "complete" ==> Parse(word + " " + rest) == Ok(Complete(n - 1))
    ensures Lower(word) == "delete" ==> Parse(word + " " + rest) == Ok(Delete(n - 1))
  {
    SplitAtSpace(word, rest);
  }

  /** A first word that is none of the five keywords is an unknown command,
      whatever follows it. */
  lemma ParseUnknownWord(line: string)
    requires CommandWord(line) !in {"add", "list", "complete", "delete", "exit"}
    ensures Parse(line) == Err(UnknownCommand)
  {
  }
}
