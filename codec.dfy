/** Normalisation and display formatting of the two codes a company carries:
    the CNPJ (the 14-digit national company registration number) and the CNAE
    (the economic-activity classification code).

    Canonical (stored) form of both codes is the string of their digits alone;
    the display form re-inserts punctuation at fixed offsets. */
module Codec {

  /** `str.isdigit` on one character, narrowed to the ASCII decimal digits. */
  predicate IsDigit(c: char) {
    '0' <= c <= '9'
  }

  /** The digits are exactly the ten characters `0123456789`. */
  lemma IsDigitExactlyTen(c: char)
    ensures IsDigit(c) <==> c in "0123456789"
  {
  }

  predicate AllDigits(s: string) {
    forall i :: 0 <= i < |s| ==> IsDigit(s[i])
  }

  /** The number of digits in `s`, counted from the end of the string: a
      reference definition written independently of `Clean`. */
  function DigitCount(s: string): nat {
    if s == [] then 0
    else DigitCount(s[..|s| - 1]) + (if IsDigit(s[|s| - 1]) then 1 else 0)
  }

  /** `t` can be obtained from `s` by deleting characters (greedy matching). */
  predicate IsSubsequence(t: string, s: string)
    decreases |s|
  {
    if t == [] then true
    else if s == [] then false
    else if t[0] == s[0] then IsSubsequence(t[1..], s[1..])
    else IsSubsequence(t, s[1..])
  }

  // ---------------------------------------------------------------------------
  // Normalisation: clean_cnpj and clean_cnae
  // ---------------------------------------------------------------------------

  /** Keeps the digits of `s` in their original order and drops everything else.
      Both `clean_cnpj` and `clean_cnae` compute exactly this. */
  function Clean(s: string): (r: string)
    ensures AllDigits(r)
    ensures |r| <= |s|
  {
    if s == [] then []
    else (if IsDigit(s[0]) then [s[0]] else []) + Clean(s[1..])
  }

  /** Cleaning distributes over concatenation. */
  lemma {:induction false} CleanAppend(a: string, b: string)
    ensures Clean(a + b) == Clean(a) + Clean(b)
  {
    if a == [] {
      assert a + b == b;
    } else {
      assert (a + b)[0] == a[0];
      assert (a + b)[1..] == a[1..] + b;
      CleanAppend(a[1..], b);
    }
  }

  /** A single separator character disappears under cleaning. */
  lemma CleanSeparator(c: char)
    requires !IsDigit(c)
    ensures Clean([c]) == []
  {
    assert [c][1..] == [];
  }

  /** A separator between two strings disappears under cleaning. */
  lemma CleanAcrossSeparator(a: string, c: char, b: string)
    requires !IsDigit(c)
    ensures Clean(a + [c] + b) == Clean(a) + Clean(b)
  {
    CleanSeparator(c);
    CleanAppend(a, [c]);
    CleanAppend(a + [c], b);
  }

  /** Cleaning changes nothing exactly when the input is already all digits. */
  lemma {:induction false} CleanFixesExactlyDigitStrings(s: string)
    ensures Clean(s) == s <==> AllDigits(s)
  {
    if s != [] && AllDigits(s) {
      assert AllDigits(s[1..]) by {
        forall i | 0 <= i < |s[1..]| ensures IsDigit(s[1..][i]) {
          assert s[1..][i] == s[i + 1];
        }
      }
      CleanFixesExactlyDigitStrings(s[1..]);
      assert s == [s[0]] + s[1..];
    }
  }

  /** Cleaning twice is cleaning once. */
  lemma CleanIdempotent(s: string)
    ensures Clean(Clean(s)) == Clean(s)
  {
    CleanFixesExactlyDigitStrings(Clean(s));
  }

  /** The cleaned string has one character per digit of the input. */
  lemma {:induction false} CleanLength(s: string)
    ensures |Clean(s)| == DigitCount(s)
  {
    if s != [] {
      var init, last := s[..|s| - 1], s[|s| - 1];
      assert s == init + [last];
      CleanAppend(init, [last]);
      assert [last][1..] == [];
      CleanLength(init);
    }
  }

  /** The cleaned string is taken from the input in order. */
  lemma {:induction false} CleanIsSubsequence(s: string)
    ensures IsSubsequence(Clean(s), s)
  {
    if s != [] {
      CleanIsSubsequence(s[1..]);
      if IsDigit(s[0]) {
        assert Clean(s) == [s[0]] + Clean(s[1..]);
        assert Clean(s)[1..] == Clean(s[1..]);
      } else {
        assert Clean(s) == Clean(s[1..]);
        if Clean(s) != [] {
          assert IsDigit(Clean(s)[0]);
        }
      }
    }
  }

  // ---------------------------------------------------------------------------
  // Python slicing with non-negative bounds (out-of-range bounds clamp)
  // ---------------------------------------------------------------------------

  /** `s[:n]` */
  function Take(s: string, n: nat): (r: string)
    ensures |r| == if n <= |s| then n else |s|
    ensures r == s[..|r|]
  {
    if n <= |s| then s[..n] else s
  }

  /** `s[n:]` */
  function Drop(s: string, n: nat): (r: string)
    ensures |r| == if n <= |s| then |s| - n else 0
    ensures r == s[|s| - |r|..]
  {
    if n <= |s| then s[n..] else []
  }

  /** `s[lo:hi]`: the characters from index `lo` up to (not including)
      `hi`, both clamped to the length of `s`; empty when `lo` is past them. */
  function Slice(s: string, lo: nat, hi: nat): (r: string)
    ensures var end := if hi <= |s| then hi else |s|;
      && |r| == (if lo <= end then end - lo else 0)
      && (lo <= end ==> r == s[lo..end])
  {
    Drop(Take(s, hi), lo)
  }

  /** Adjacent slices join up: `s[:a] + s[a:b] == s[:b]`. */
  lemma TakeSliceJoin(s: string, a: nat, b: nat)
    requires a <= b
    ensures Take(s, a) + Slice(s, a, b) == Take(s, b)
  {
    var t := Take(s, b);
    if a <= |t| {
      assert Take(s, a) == t[..a];
      assert t[..a] + t[a..] == t;
    }
  }

  /** The five CNPJ groups `s[:2] s[2:5] s[5:8] s[8:12] s[12:]` cover `s`
      exactly, whatever its length. */
  lemma CnpjGroupsRejoin(s: string)
    ensures Take(s, 2) + Slice(s, 2, 5) + Slice(s, 5, 8) + Slice(s, 8, 12) + Drop(s, 12) == s
  {
    TakeSliceJoin(s, 2, 5);
    TakeSliceJoin(s, 5, 8);
    TakeSliceJoin(s, 8, 12);
    if 12 <= |s| {
      assert s[..12] + s[12..] == s;
    }
  }

  // ---------------------------------------------------------------------------
  // Display formatting: format_cnpj and format_cnae
  // ---------------------------------------------------------------------------

  /** `DD.DDD.DDD/DDDD-DD`: the groups 2-3-3-4-rest of `s` separated by
      `.`, `.`, `/` and `-`. Shorter inputs give shorter (or empty) groups. */
  function FormatCnpj(s: string): (r: string)
    ensures |r| == |s| + 4
  {
    Take(s, 2) + "." + Slice(s, 2, 5) + "." + Slice(s, 5, 8) + "/" + Slice(s, 8, 12) + "-" + Drop(s, 12)
  }

  /** `DDDD-rest`: one `-` after the first four characters (or after the
      whole string when it is shorter). */
  function FormatCnae(s: string): (r: string)
    ensures |r| == |s| + 1
  {
    Take(s, 4) + "-" + Drop(s, 4)
  }

  /** A well-formed CNPJ display string `DD.DDD.DDD/DDDD-DD`. */
  predicate IsCnpjDisplay(t: string) {
    && |t| == 18
    && t[2] == '.' && t[6] == '.' && t[10] == '/' && t[15] == '-'
    && forall i :: 0 <= i < 18 && i !in {2, 6, 10, 15} ==> IsDigit(t[i])
  }

  /** On a 14-character input the separators sit at indices 2, 6, 10 and 15
      and the other 14 positions hold the input in order. */
  lemma FormatCnpjLayout(s: string)
    requires |s| == 14
    ensures var r := FormatCnpj(s);
      && r[2] == '.' && r[6] == '.' && r[10] == '/' && r[15] == '-'
      && r[..2] == s[..2] && r[3..6] == s[2..5] && r[7..10] == s[5..8]
      && r[11..15] == s[8..12] && r[16..] == s[12..]
      && (AllDigits(s) ==> IsCnpjDisplay(r))
  {
    var r := FormatCnpj(s);
    assert Take(s, 2) == s[..2] && Drop(s, 12) == s[12..];
    assert Slice(s, 2, 5) == s[2..5] && Slice(s, 5, 8) == s[5..8] && Slice(s, 8, 12) == s[8..12];
    assert r == s[..2] + "." + s[2..5] + "." + s[5..8] + "/" + s[8..12] + "-" + s[12..];
    if AllDigits(s) {
      forall i | 0 <= i < 18 && i !in {2, 6, 10, 15} ensures IsDigit(r[i]) {
        if i < 2 { assert r[i] == s[i]; }
        else if i < 6 { assert r[i] == s[i - 1]; }
        else if i < 10 { assert r[i] == s[i - 2]; }
        else if i < 15 { assert r[i] == s[i - 3]; }
        else { assert r[i] == s[i - 4]; }
      }
    }
  }

  /** Formatting only adds separators: cleaning the display form gives the
      cleaned input back, for every input. */
  lemma CleanFormatCnpj(s: string)
    ensures Clean(FormatCnpj(s)) == Clean(s)
  {
    var p0, p1, p2, p3, p4 := Take(s, 2), Slice(s, 2, 5), Slice(s, 5, 8), Slice(s, 8, 12), Drop(s, 12);
    var a := p0 + "." + p1;
    var b := a + "." + p2;
    var c := b + "/" + p3;
    CleanAcrossSeparator(p0, '.', p1);
    CleanAcrossSeparator(a, '.', p2);
    CleanAcrossSeparator(b, '/', p3);
    CleanAcrossSeparator(c, '-', p4);
    assert Clean(FormatCnpj(s)) == Clean(p0) + Clean(p1) + Clean(p2) + Clean(p3) + Clean(p4);
    CleanAppend(p0, p1);
    CleanAppend(p0 + p1, p2);
    CleanAppend(p0 + p1 + p2, p3);
    CleanAppend(p0 + p1 + p2 + p3, p4);
    CnpjGroupsRejoin(s);
  }

  /** Round trip: a stored (all-digit) CNPJ of any length is recovered from
      its display form. */
  lemma FormatCnpjRoundTrip(s: string)
    requires AllDigits(s)
    ensures Clean(FormatCnpj(s)) == s
  {
    CleanFormatCnpj(s);
    CleanFixesExactlyDigitStrings(s);
  }

  /** A concatenation splits back into its parts when the first parts agree in length. */
  lemma SplitConcat(a: string, b: string, c: string, d: string)
    requires a + b == c + d && |a| == |c|
    ensures a == c && b == d
  {
    assert a == (a + b)[..|a|] && c == (c + d)[..|c|];
    assert b == (a + b)[|a|..] && d == (c + d)[|c|..];
  }

  /** Two different strings never share a CNPJ display form: the group lengths
      depend only on the input length, so equal display forms have equal groups. */
  lemma FormatCnpjInjective(s: string, t: string)
    requires FormatCnpj(s) == FormatCnpj(t)
    ensures s == t
  {
    var s0, s1, s2, s3, s4 := Take(s, 2), Slice(s, 2, 5), Slice(s, 5, 8), Slice(s, 8, 12), Drop(s, 12);
    var t0, t1, t2, t3, t4 := Take(t, 2), Slice(t, 2, 5), Slice(t, 5, 8), Slice(t, 8, 12), Drop(t, 12);
    assert |s| == |t|;
    SplitConcat(s0 + "." + s1 + "." + s2 + "/" + s3 + "-", s4, t0 + "." + t1 + "." + t2 + "/" + t3 + "-", t4);
    SplitConcat(s0 + "." + s1 + "." + s2 + "/" + s3, "-", t0 + "." + t1 + "." + t2 + "/" + t3, "-");
    SplitConcat(s0 + "." + s1 + "." + s2 + "/", s3, t0 + "." + t1 + "." + t2 + "/", t3);
    SplitConcat(s0 + "." + s1 + "." + s2, "/", t0 + "." + t1 + "." + t2, "/");
    SplitConcat(s0 + "." + s1 + ".", s2, t0 + "." + t1 + ".", t2);
    SplitConcat(s0 + "." + s1, ".", t0 + "." + t1, ".");
    SplitConcat(s0 + ".", s1, t0 + ".", t1);
    SplitConcat(s0, ".", t0, ".");
    CnpjGroupsRejoin(s);
    CnpjGroupsRejoin(t);
  }

  /** Normalising then formatting is idempotent. */
  lemma NormalizeFormatIdempotent(x: string)
    ensures FormatCnpj(Clean(FormatCnpj(Clean(x)))) == FormatCnpj(Clean(x))
  {
    FormatCnpjRoundTrip(Clean(x));
  }

  /** `format_cnae(s) == s[:4] + "-" + s[4:]`, spelled out for both lengths. */
  lemma FormatCnaeShape(s: string)
    ensures |s| >= 4 ==> FormatCnae(s) == s[..4] + "-" + s[4..]
    ensures |s| < 4 ==> FormatCnae(s) == s + "-"
    ensures FormatCnae(s)[if |s| < 4 then |s| else 4] == '-'
  {
  }

  /** Formatting a CNAE only adds a separator. */
  lemma CleanFormatCnae(s: string)
    ensures Clean(FormatCnae(s)) == Clean(s)
  {
    CleanAcrossSeparator(Take(s, 4), '-', Drop(s, 4));
    CleanAppend(Take(s, 4), Drop(s, 4));
    if 4 <= |s| {
      assert s[..4] + s[4..] == s;
    }
  }

  /** Round trip: a stored (all-digit) CNAE is recovered from its display form. */
  lemma FormatCnaeRoundTrip(s: string)
    requires AllDigits(s)
    ensures Clean(FormatCnae(s)) == s
  {
    CleanFormatCnae(s);
    CleanFixesExactlyDigitStrings(s);
  }
}
