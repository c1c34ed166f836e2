/** Validity of the strings that the delivery tools accept. */
module Text {

  datatype Option<+T> = None | Some(value: T)

  /** The characters that Python's `str.strip` removes. */
  predicate IsSpace(c: char) {
    var n := c as int;
    || 9 <= n <= 13
    || 28 <= n <= 32
    || n in {0x85, 0xA0, 0x1680, 0x2028, 0x2029, 0x202F, 0x205F, 0x3000}
    || 0x2000 <= n <= 0x200A
  }

  /** A nonempty string: something is left once the white space is stripped. */
  predicate NonBlank(s: string) {
    exists i :: 0 <= i < |s| && !IsSpace(s[i])
  }

  /** A full lowercase commit identifier. */
  predicate IsSha(s: string) {
    && |s| == 40
    && forall i :: 0 <= i < |s| ==> '0' <= s[i] <= '9' || 'a' <= s[i] <= 'f'
  }

  /** `[a-z][a-z0-9:_-]*` */
  predicate IsResourceName(s: string) {
    && s != ""
    && 'a' <= s[0] <= 'z'
    && forall i :: 0 <= i < |s| ==> 'a' <= s[i] <= 'z' || '0' <= s[i] <= '9' || s[i] in ":_-"
  }

  /** The control characters among them are tab to carriage return and the four separators; the rest are blanks. */
  lemma SpacesExactly(c: char)
    ensures c < '\U{0080}' ==> (IsSpace(c) <==> c in "\t\n\r \U{000B}\U{000C}\U{001C}\U{001D}\U{001E}\U{001F}")
    ensures c >= '\U{0080}' ==>
              (IsSpace(c) <==>
                || c in "\U{0085}\U{00A0}\U{1680}\U{2028}\U{2029}\U{202F}\U{205F}\U{3000}"
                || c in "\U{2000}\U{2001}\U{2002}\U{2003}\U{2004}\U{2005}\U{2006}\U{2007}\U{2008}\U{2009}\U{200A}")
  {
  }

  /** What is left of a text without the white space at its ends, as `str.strip` gives it. */
  function Strip(s: string): string {
    if s == "" then ""
    else if IsSpace(s[0]) then Strip(s[1..])
    else if IsSpace(s[|s| - 1]) then Strip(s[..|s| - 1])
    else s
  }

  lemma {:induction false} NonBlankExactly(s: string)
    ensures NonBlank(s) <==> Strip(s) != ""
    decreases |s|
  {
    if s == "" {
    } else if IsSpace(s[0]) {
      NonBlankExactly(s[1..]);
      if i :| 0 <= i < |s| && !IsSpace(s[i]) {
        assert s[1..][i - 1] == s[i];
      }
    } else if IsSpace(s[|s| - 1]) {
      NonBlankExactly(s[..|s| - 1]);
      assert s[..|s| - 1][0] == s[0];
    }
  }

  const ALPHABET := "abcdefghijklmnopqrstuvwxyz"

  lemma IdentifiersExactly(s: string)
    ensures IsSha(s) <==> |s| == 40 && forall c :: c in s ==> c in "0123456789abcdef"
    ensures IsResourceName(s) <==>
              s != "" && s[0] in ALPHABET && forall c :: c in s ==> c in ALPHABET + "0123456789:_-"
  {
    LettersExactly();
    if IsSha(s) {
      forall c | c in s
        ensures c in "0123456789abcdef"
      {
        var i :| 0 <= i < |s| && s[i] == c;
      }
    }
    if IsResourceName(s) {
      forall c | c in s
        ensures c in ALPHABET + "0123456789:_-"
      {
        var i :| 0 <= i < |s| && s[i] == c;
      }
    }
    assert forall i :: 0 <= i < |s| ==> s[i] in s;
  }

  lemma LettersExactly()
    ensures forall c :: c in "0123456789abcdef" <==> '0' <= c <= '9' || 'a' <= c <= 'f'
    ensures forall c :: c in ALPHABET <==> 'a' <= c <= 'z'
    ensures forall c :: c in ALPHABET + "0123456789:_-" <==> 'a' <= c <= 'z' || '0' <= c <= '9' || c in ":_-"
  {
    var hex, rest := "0123456789abcdef", "0123456789:_-";
    assert forall i :: 0 <= i < 26 ==> ALPHABET[i] as int == i + 97;
    assert forall i :: 0 <= i < 16 ==> hex[i] as int == if i < 10 then i + 48 else i + 87;
    assert forall i :: 0 <= i < 10 ==> rest[i] as int == i + 48;
    forall c: char | 'a' <= c <= 'z'
      ensures c in ALPHABET
    {
      assert ALPHABET[c as int - 97] == c;
    }
    forall c: char | '0' <= c <= '9'
      ensures c in rest && c in hex
    {
      assert rest[c as int - 48] == c && hex[c as int - 48] == c;
    }
    forall c: char | 'a' <= c <= 'f'
      ensures c in hex
    {
      assert hex[c as int - 87] == c;
    }
    assert rest[10..] == ":_-" && rest == rest[..10] + ":_-";
  }

  ghost predicate Distinct<T>(s: seq<T>) {
    forall i, j :: 0 <= i < j < |s| ==> s[i] != s[j]
  }

  /** `len(set(s)) == len(s)` */
  predicate IsDistinct<T(==)>(s: seq<T>)
    ensures IsDistinct(s) <==> Distinct(s)
  {
    if s == [] then true
    else
      var rest := s[..|s| - 1];
      assert forall i :: 0 <= i < |rest| ==> s[i] == rest[i];
      s[|s| - 1] !in rest && IsDistinct(rest)
  }

  function Digit(n: nat): char
    requires n < 10
  {
    "0123456789"[n]
  }

  function Decimal(n: nat): string {
    if n < 10 then [Digit(n)] else Decimal(n / 10) + [Digit(n % 10)]
  }

  /** Distinct numbers have distinct texts, so `str(n)` keys may be read as the numbers themselves. */
  lemma {:induction false} DecimalInjective(m: nat, n: nat)
    requires Decimal(m) == Decimal(n)
    ensures m == n
  {
    var a, b := Decimal(m), Decimal(n);
    assert a[|a| - 1] == Digit(m % 10) && b[|b| - 1] == Digit(n % 10);
    DigitInjective(m % 10, n % 10);
    if m >= 10 && n >= 10 {
      assert a[..|a| - 1] == Decimal(m / 10) && b[..|b| - 1] == Decimal(n / 10);
      DecimalInjective(m / 10, n / 10);
    }
  }

  lemma DigitInjective(m: nat, n: nat)
    requires m < 10 && n < 10 && Digit(m) == Digit(n)
    ensures m == n
  {
    assert forall i :: 0 <= i < 10 ==> Digit(i) as int == '0' as int + i;
  }

  /** The next element of a collection whose order does not matter. */
  method Pick<T>(s: set<T>) returns (x: T)
    requires s != {}
    ensures x in s
  {
    x :| x in s;
  }
}
