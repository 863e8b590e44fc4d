/** Printing a code in groups, and comparing what a user typed with it. */
module UserCode {

  datatype Outcome = Match | NoMatch | TypeError
  datatype Printed = Code(text: string) | ValueError

  /** ASCII punctuation and white space. */
  predicate Separator(c: char) {
    var n := c as int;
    9 <= n <= 13 || 32 <= n <= 47 || 58 <= n <= 64 || 91 <= n <= 96 || 123 <= n <= 126
  }

  function Strip(s: string): string {
    if s == "" then ""
    else if Separator(s[0]) then Strip(s[1..])
    else [s[0]] + Strip(s[1..])
  }

  predicate Plain(s: string) {
    forall c :: c in s ==> !Separator(c)
  }

  const KELVIN: char := '\U{212A}'
  const DOTTED_I: char := '\U{0130}'
  const DOT_ABOVE: char := '\U{0307}'

  predicate Ascii(s: string) {
    forall c :: c in s ==> c as int <= 127
  }

  /** Lower case. Of the characters outside ASCII the Kelvin sign alone becomes an ASCII letter and
      the dotted capital I contains one; all others stay outside, so they may stand for themselves. */
  function LowerChar(c: char): (r: string)
    ensures r != "" && (Ascii(r) <==> c as int <= 127 || c == KELVIN)
  {
    if 'A' <= c <= 'Z' then [c + 32 as char]
    else if c == KELVIN then "k"
    else if c == DOTTED_I then assert DOT_ABOVE in ['i', DOT_ABOVE] && DOT_ABOVE as int == 0x307; ['i', DOT_ABOVE]
    else assert c in [c]; [c]
  }

  function Lower(s: string): string {
    if s == "" then "" else LowerChar(s[0]) + Lower(s[1..])
  }

  /** `compare_user_code`; the constant-time comparison refuses text outside ASCII. */
  function CompareUserCode(actual: string, expected: string): Outcome {
    var a, e := Lower(Strip(actual)), Lower(Strip(expected));
    if e == "" then NoMatch
    else if !Ascii(a) || !Ascii(e) then TypeError
    else if a == e then Match
    else NoMatch
  }

  /** `generate_user_code`, given the random code. A dashed code of length zero is an error: the
      groups would have no width. */
  function GenerateUserCode(code: string, dashed: bool): Printed {
    if !dashed then Code(code)
    else if code == "" then ValueError
    else Code(Join(Groups(code, Chunk(|code|))))
  }

  function Parts(length: nat): nat {
    if length <= 8 then 2 else 3
  }

  function Chunk(length: nat): nat {
    (length + Parts(length) - 1) / Parts(length)
  }

  function Groups(code: string, chunk: nat): seq<string>
    requires chunk > 0
  {
    if |code| <= chunk then [code] else [code[..chunk]] + Groups(code[chunk..], chunk)
  }

  function Join(groups: seq<string>): string {
    if groups == [] then ""
    else if |groups| == 1 then groups[0]
    else groups[0] + "-" + Join(groups[1..])
  }

  function Concat(groups: seq<string>): string {
    if groups == [] then "" else groups[0] + Concat(groups[1..])
  }

  // ---------- Printing ----------

  lemma {:induction false} StripConcat(s: string, t: string)
    ensures Strip(s + t) == Strip(s) + Strip(t)
  {
    if s == "" {
      assert s + t == t;
    } else {
      assert (s + t)[0] == s[0] && (s + t)[1..] == s[1..] + t;
      StripConcat(s[1..], t);
    }
  }

  /** Stripping keeps exactly the characters that are not separators, and is done in one go. */
  lemma {:induction false} StripIsPlain(s: string)
    ensures Plain(Strip(s)) && (Plain(s) <==> Strip(s) == s)
    ensures Strip(Strip(s)) == Strip(s)
  {
    if s != "" {
      StripIsPlain(s[1..]);
      if Separator(s[0]) {
        StripShort(s[1..]);
      } else {
        assert Strip(s)[1..] == Strip(s[1..]);
        assert s == [s[0]] + s[1..];
      }
    }
  }

  lemma {:induction false} StripShort(s: string)
    ensures |Strip(s)| <= |s|
  {
    if s != "" {
      StripShort(s[1..]);
    }
  }

  lemma {:induction false} GroupsSplit(code: string, chunk: nat)
    requires chunk > 0 && code != ""
    ensures Groups(code, chunk) != [] && Concat(Groups(code, chunk)) == code
    ensures forall g :: g in Groups(code, chunk) ==> 1 <= |g| <= chunk
    decreases |code|
  {
    if |code| > chunk {
      GroupsSplit(code[chunk..], chunk);
      assert Groups(code, chunk)[1..] == Groups(code[chunk..], chunk);
      assert code == code[..chunk] + code[chunk..];
    } else {
      assert Concat([code]) == code + Concat([]);
    }
  }

  lemma {:induction false} JoinStrips(groups: seq<string>)
    ensures Strip(Join(groups)) == Strip(Concat(groups))
  {
    if |groups| == 1 {
      assert groups[1..] == [] && groups[0] + Concat(groups[1..]) == groups[0];
    } else if |groups| > 1 {
      JoinStrips(groups[1..]);
      StripConcat(groups[0] + "-", Join(groups[1..]));
      StripConcat(groups[0], "-");
      StripConcat(groups[0], Concat(groups[1..]));
      assert Strip("-") == "" && Strip(groups[0]) + "" == Strip(groups[0]);
    }
  }

  /** As many groups as it takes, up to three. */
  lemma GroupCount(code: string, chunk: nat)
    requires chunk > 0 && |code| <= 3 * chunk
    ensures |Groups(code, chunk)| <= 3 && (|code| <= 2 * chunk ==> |Groups(code, chunk)| <= 2)
  {
    if |code| > chunk {
      var rest := code[chunk..];
      assert |Groups(code, chunk)| == 1 + |Groups(rest, chunk)|;
      if |rest| > chunk {
        assert |Groups(rest, chunk)| == 1 + |Groups(rest[chunk..], chunk)|;
      }
    }
  }

  /** What a user reads off a printed code: at most two groups for up to eight characters and at
      most three otherwise, none of them empty, and without the dashes it is the code. */
  lemma PrintedCode(code: string)
    requires code != ""
    ensures GenerateUserCode(code, true).Code?
    ensures var groups := Groups(code, Chunk(|code|));
      && GenerateUserCode(code, true).text == Join(groups)
      && |groups| <= Parts(|code|) && Concat(groups) == code && "" !in groups
    ensures Strip(GenerateUserCode(code, true).text) == Strip(code)
    ensures Plain(code) ==> Strip(GenerateUserCode(code, true).text) == code
  {
    var chunk := Chunk(|code|);
    GroupsSplit(code, chunk);
    JoinStrips(Groups(code, chunk));
    GroupCount(code, chunk);
    StripIsPlain(code);
  }

  lemma TwoGroups(code: string, w: nat)
    requires 0 < w < |code| <= 2 * w
    ensures Join(Groups(code, w)) == code[..w] + "-" + code[w..]
  {
    assert Groups(code, w) == [code[..w], code[w..]];
  }

  lemma ThreeGroups(code: string, w: nat)
    requires 0 < w && 2 * w < |code| <= 3 * w
    ensures Join(Groups(code, w)) == code[..w] + "-" + code[w..2 * w] + "-" + code[2 * w..]
  {
    var rest := code[w..];
    TwoGroups(rest, w);
    assert rest[..w] == code[w..2 * w] && rest[w..] == code[2 * w..];
    assert Groups(code, w) == [code[..w]] + Groups(rest, w);
    var join := Join(Groups(rest, w));
    hide Groups;
    assert Join(Groups(code, w)) == code[..w] + "-" + join;
  }

  /** A printed code in so many words: the whole of a single character, two halves of up to eight, and
      three thirds beyond; the first ones longer when it does not divide. */
  lemma PrintedIs(code: string)
    requires code != ""
    ensures var n := |code|;
      GenerateUserCode(code, true) == Code(
        if n == 1 then code
        else if n <= 8 then code[..(n + 1) / 2] + "-" + code[(n + 1) / 2..]
        else code[..(n + 2) / 3] + "-" + code[(n + 2) / 3..2 * ((n + 2) / 3)] + "-" + code[2 * ((n + 2) / 3)..])
  {
    var n := |code|;
    if n == 1 {
      assert Join([code]) == code;
    } else {
      hide Groups, Join;
      if n <= 8 {
        TwoGroups(code, (n + 1) / 2);
      } else {
        ThreeGroups(code, (n + 2) / 3);
      }
    }
  }

  // ---------- Comparing ----------

  /** `d` is the ASCII letter `c` in lower case. */
  predicate IsLower(c: char, d: char) {
    'A' <= c <= 'Z' && d as int == c as int + 32
  }

  /** The same character but for its case; the Kelvin sign counts as a letter k. */
  predicate SameLetter(c: char, d: char) {
    c == d || IsLower(c, d) || IsLower(d, c) || (c in "Kk\U{212A}" && d in "Kk\U{212A}")
  }

  /** Lower-casing makes equal exactly what is the same letter. */
  lemma SameLetterIff(c: char, d: char)
    ensures LowerChar(c) == LowerChar(d) <==> SameLetter(c, d)
  {
    var k := "Kk\U{212A}";
    assert k[0] == 'K' && k[1] == 'k' && k[2] == KELVIN && |k| == 3;
    assert |LowerChar(c)| == 1 ==> LowerChar(c)[0] in LowerChar(c);
    if LowerChar(c) == LowerChar(d) {
      assert LowerChar(c)[0] == LowerChar(d)[0];
    }
  }

  /** The separators are ASCII punctuation and white space, spelled out. */
  lemma SeparatorIff(c: char)
    ensures Separator(c) <==>
      c in "!\"#$%&'()*+,-./:;<=>?@[\\]^_`{|}~" || c in " \t\n\r" || c == 11 as char || c == 12 as char
  {
    var p := "!\"#$%&'()*+,-./:;<=>?@[\\]^_`{|}~";
    assert |p| == 32;
    assert forall i :: 0 <= i < 15 ==> p[i] as int == 33 + i;
    assert forall i :: 15 <= i < 22 ==> p[i] as int == 43 + i;
    assert forall i :: 22 <= i < 28 ==> p[i] as int == 69 + i;
    assert forall i :: 28 <= i < 32 ==> p[i] as int == 95 + i;
    if Separator(c) && 33 <= c as int {
      var n := c as int;
      var i := if n < 48 then n - 33 else if n < 65 then n - 43 else if n < 97 then n - 69 else n - 95;
      assert p[i] == c;
    }
    var w := " \t\n\r";
    assert w[0] as int == 32 && w[1] as int == 9 && w[2] as int == 10 && w[3] as int == 13;
  }

  /** Equal but for case, punctuation and white space, read side by side. */
  predicate SameCode(a: string, b: string)
    decreases |a| + |b|
  {
    if a != "" && Separator(a[0]) then SameCode(a[1..], b)
    else if b != "" && Separator(b[0]) then SameCode(a, b[1..])
    else if a == "" || b == "" then a == b
    else SameLetter(a[0], b[0]) && SameCode(a[1..], b[1..])
  }

  /** Whether a character takes part in a comparison. The Kelvin sign does, as a letter k. */
  predicate Comparable(c: char) {
    Separator(c) || c as int <= 127 || c == KELVIN
  }

  lemma AsciiConcat(s: string, t: string)
    ensures Ascii(s + t) <==> Ascii(s) && Ascii(t)
  {
    assert forall c :: c in s + t <==> c in s || c in t;
  }

  lemma {:induction false} LowerAscii(s: string)
    ensures Ascii(Lower(s)) <==> forall c :: c in s ==> c as int <= 127 || c == KELVIN
    ensures Lower(s) == "" <==> s == ""
  {
    if s != "" {
      LowerAscii(s[1..]);
      assert s[0] in s && forall c :: c in s <==> c == s[0] || c in s[1..];
      AsciiConcat(LowerChar(s[0]), Lower(s[1..]));
    }
  }

  lemma {:induction false} StripMembers(s: string)
    ensures forall c :: c in Strip(s) <==> c in s && !Separator(c)
  {
    if s != "" {
      StripMembers(s[1..]);
      assert s == [s[0]] + s[1..];
    }
  }

  lemma {:induction false} SameIsEqualFolded(a: string, b: string)
    requires forall c :: c in a || c in b ==> Comparable(c)
    ensures SameCode(a, b) <==> Lower(Strip(a)) == Lower(Strip(b))
    decreases |a| + |b|
  {
    if a != "" && Separator(a[0]) {
      SameIsEqualFolded(a[1..], b);
    } else if b != "" && Separator(b[0]) {
      SameIsEqualFolded(a, b[1..]);
    } else if a == "" || b == "" {
      LowerAscii(Strip(a));
      LowerAscii(Strip(b));
    } else {
      SameIsEqualFolded(a[1..], b[1..]);
      SameLetterIff(a[0], b[0]);
      var x, y := LowerChar(a[0]), LowerChar(b[0]);
      assert a[0] in a && b[0] in b;
      assert |x| == 1 && |y| == 1;
      assert Strip(a)[1..] == Strip(a[1..]) && Strip(b)[1..] == Strip(b[1..]);
      assert (x + Lower(Strip(a[1..])))[1..] == Lower(Strip(a[1..]));
      assert (y + Lower(Strip(b[1..])))[1..] == Lower(Strip(b[1..]));
    }
  }

  /** A comparison succeeds exactly for inputs that equal a non-empty code up to case, punctuation
      and white space; it fails with an error exactly when the code is not empty and either side
      has a character that is not comparable. In particular nothing matches an empty code. */
  lemma CompareIff(actual: string, expected: string)
    ensures CompareUserCode(actual, expected) == Match <==>
      && Strip(expected) != "" && (forall c :: c in actual || c in expected ==> Comparable(c))
      && SameCode(actual, expected)
    ensures CompareUserCode(actual, expected) == TypeError <==>
      Strip(expected) != "" && exists c :: (c in actual || c in expected) && !Comparable(c)
    ensures Strip(expected) == "" ==> CompareUserCode(actual, expected) == NoMatch
  {
    LowerAscii(Strip(actual));
    LowerAscii(Strip(expected));
    StripMembers(actual);
    StripMembers(expected);
    if forall c :: c in actual || c in expected ==> Comparable(c) {
      SameIsEqualFolded(actual, expected);
    }
  }

  /** A printed code is matched by the code itself and by every respelling of it, and by nothing else;
      a character that is not comparable, on either side, stands in the way. */
  lemma PrintedCodeMatches(code: string, typed: string)
    requires code != ""
    ensures GenerateUserCode(code, true).Code?
    ensures CompareUserCode(typed, GenerateUserCode(code, true).text) == Match <==>
      && Strip(code) != "" && (forall c :: c in typed || c in code ==> Comparable(c))
      && SameCode(typed, code)
  {
    PrintedCode(code);
    CompareIff(typed, code);
  }

  /** Lower-casing reaches beyond ASCII once: the Kelvin sign passes for a letter k. */
  lemma KelvinSignMatches()
    ensures CompareUserCode("\U{212A}", "K") == Match
  {
    var one := "\U{212A}";
    assert one == [KELVIN];
    assert Strip(one) == one + Strip(one[1..]) && Strip("K") == "K";
    assert Lower(one) == LowerChar(KELVIN) + Lower(one[1..]) && Lower("K") == "k";
  }
}
