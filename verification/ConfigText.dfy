/** How src/user/uroam_cli.py reads its arguments: dotted paths, and values by what their text looks like. */
module ConfigText {
  import opened Options

  /** A value that is no dictionary. Other: whatever else YAML can hold, such as null or a list. */
  datatype Literal = Bool(b: bool) | Int(n: int) | Float(text: string) | Str(text: string) | Other(text: string)

  type Path = p: seq<string> | p != [] witness [""]

  // ----- dotted paths -----

  function Push(c: char, p: Path): Path { [[c] + p[0]] + p[1..] }

  /** param.split('.') */
  function Split(s: string): (p: Path)
    ensures |p| == 1 <==> '.' !in s
  {
    if s == "" then [""]
    else
      var rest := Split(s[1..]);
      if s[0] == '.' then [""] + rest else Push(s[0], rest)
  }

  function Join(p: Path): string {
    if |p| == 1 then p[0] else p[0] + "." + Join(p[1..])
  }

  predicate NoDots(p: seq<string>) {
    forall i :: 0 <= i < |p| ==> '.' !in p[i]
  }

  lemma JoinPush(c: char, p: Path)
    ensures Join(Push(c, p)) == [c] + Join(p)
  {
    assert Push(c, p)[1..] == p[1..];
    if |p| > 1 {
      assert [c] + p[0] + "." + Join(p[1..]) == [c] + (p[0] + "." + Join(p[1..]));
    }
  }

  /** Nothing is lost by splitting, and the parts are as short as can be. */
  lemma {:induction false} JoinSplit(s: string)
    ensures Join(Split(s)) == s && NoDots(Split(s))
  {
    if s != "" {
      JoinSplit(s[1..]);
      var rest := Split(s[1..]);
      if s[0] == '.' {
        assert Split(s)[1..] == rest;
      } else {
        JoinPush(s[0], rest);
      }
    }
  }

  lemma {:induction false} SplitDotless(a: string)
    requires '.' !in a
    ensures Split(a) == [a]
  {
    if a != "" {
      SplitDotless(a[1..]);
      assert [a[0]] + a[1..] == a;
    }
  }

  lemma {:induction false} SplitAtDot(a: string, s: string)
    requires '.' !in a
    ensures Split(a + "." + s) == [a] + Split(s)
  {
    var t := a + "." + s;
    if a == "" {
      assert t[1..] == s;
    } else {
      SplitAtDot(a[1..], s);
      assert t[1..] == a[1..] + "." + s;
      assert [a[0]] + a[1..] == a;
      assert Split(t) == Push(a[0], [a[1..]] + Split(s));
    }
  }

  /** Every list of parts without dots is the split of exactly one text. */
  lemma {:induction false} SplitJoin(p: Path)
    requires NoDots(p)
    ensures Split(Join(p)) == p
  {
    if |p| == 1 {
      SplitDotless(p[0]);
    } else {
      SplitJoin(p[1..]);
      SplitAtDot(p[0], Join(p[1..]));
    }
  }

  // ----- values -----

  function LowerChar(c: char): char {
    if 'A' <= c <= 'Z' then (c as int + 32) as char else c
  }

  /** Lower case of the letters that matter for the two booleans. */
  function Lower(s: string): string {
    seq(|s|, i requires 0 <= i < |s| => LowerChar(s[i]))
  }

  predicate IsDigit(c: char) { '0' <= c <= '9' }

  predicate AllDigits(s: string) {
    forall i :: 0 <= i < |s| ==> IsDigit(s[i])
  }

  predicate IsDecimal(s: string) {
    s != "" && AllDigits(s)
  }

  function DigitValue(c: char): nat
    requires IsDigit(c)
  {
    c as int - '0' as int
  }

  function Number(s: string): nat
    requires AllDigits(s)
  {
    if s == "" then 0 else 10 * Number(s[..|s| - 1]) + DigitValue(s[|s| - 1])
  }

  /** other: what int or float make of a text that is neither a boolean nor plain digits, if they take it. */
  function Convert(value: string, other: Option<Literal>): Literal {
    if Lower(value) == "true" || Lower(value) == "false" then Bool(Lower(value) == "true")
    else if IsDecimal(value) then Int(Number(value))
    else if other.Some? then other.value
    else Str(value)
  }

  function Decimal(n: nat): string {
    (if n < 10 then "" else Decimal(n / 10)) + [(n % 10 + '0' as int) as char]
  }

  lemma {:induction false} NumberOfDecimal(n: nat)
    ensures IsDecimal(Decimal(n)) && Number(Decimal(n)) == n
  {
    if n >= 10 {
      NumberOfDecimal(n / 10);
      assert Decimal(n)[..|Decimal(n)| - 1] == Decimal(n / 10);
    } else {
      assert Decimal(n)[..0] == "";
    }
  }

  lemma LowerKeepsDigit(s: string)
    requires s != "" && IsDigit(s[0])
    ensures Lower(s) != "true" && Lower(s) != "false"
  {
    assert Lower(s)[0] == s[0];
  }

  /** A number typed in decimal arrives as that number. */
  lemma ConvertDecimal(n: nat, other: Option<Literal>)
    ensures Convert(Decimal(n), other) == Int(n)
  {
    NumberOfDecimal(n);
    LowerKeepsDigit(Decimal(n));
  }

  /** Any spelling of the two words, letter by letter. */
  predicate SpellsTrue(v: string) {
    |v| == 4 && v[0] in "tT" && v[1] in "rR" && v[2] in "uU" && v[3] in "eE"
  }

  predicate SpellsFalse(v: string) {
    |v| == 5 && v[0] in "fF" && v[1] in "aA" && v[2] in "lL" && v[3] in "sS" && v[4] in "eE"
  }

  lemma LowerAt(v: string, word: string)
    ensures Lower(v) == word <==> |v| == |word| && forall i :: 0 <= i < |v| ==> LowerChar(v[i]) == word[i]
  {
  }

  lemma LowerWords(v: string)
    ensures Lower(v) == "true" <==> SpellsTrue(v)
    ensures Lower(v) == "false" <==> SpellsFalse(v)
  {
    LowerAt(v, "true");
    LowerAt(v, "false");
  }

  /** What becomes of a typed value: the two words in any spelling, plain digits, what float takes, other text. */
  lemma ConvertInValues(v: string, other: Option<Literal>)
    ensures SpellsTrue(v) ==> Convert(v, other) == Bool(true)
    ensures SpellsFalse(v) ==> Convert(v, other) == Bool(false)
    ensures v != "" && (forall i :: 0 <= i < |v| ==> '0' <= v[i] <= '9') ==> Convert(v, other) == Int(Number(v))
    ensures !SpellsTrue(v) && !SpellsFalse(v) && (v == "" || exists i :: 0 <= i < |v| && !('0' <= v[i] <= '9'))
            ==> Convert(v, other) == if other.Some? then other.value else Str(v)
  {
    LowerWords(v);
    if v != "" && IsDigit(v[0]) {
      LowerKeepsDigit(v);
    }
  }

  lemma NumberSnoc(s: string, d: char)
    requires AllDigits(s) && IsDigit(d)
    ensures AllDigits(s + [d]) && Number(s + [d]) == 10 * Number(s) + DigitValue(d)
  {
    assert (s + [d])[..|s|] == s;
  }

  /** Leading zeros do not matter. */
  lemma {:induction false} LeadingZero(s: string)
    requires AllDigits(s)
    ensures AllDigits("0" + s) && Number("0" + s) == Number(s)
  {
    if s == "" {
      assert "0" + s == "" + ['0'];
      NumberSnoc("", '0');
    } else {
      var front, d := s[..|s| - 1], s[|s| - 1];
      LeadingZero(front);
      NumberSnoc("0" + front, d);
      assert "0" + s == ("0" + front) + [d];
    }
  }
}
