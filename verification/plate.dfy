/** Licence-plate normalisation (`normalize_plate`): upper-case the text, drop
    every character outside A-Z and 0-9, and accept the result only when its
    length lies between 6 and 12. */
module Plate {
  import opened Basics

  const MinPlateLength := 6
  const MaxPlateLength := 12

  /** A character the pattern `[A-Z0-9]` matches. */
  predicate IsPlateChar(c: char) {
    ('A' <= c <= 'Z') || ('0' <= c <= '9')
  }

  /** A canonical plate: 6 to 12 characters, all of them in A-Z or 0-9. */
  predicate IsCanonical(p: string) {
    && MinPlateLength <= |p| <= MaxPlateLength
    && forall i :: 0 <= i < |p| ==> IsPlateChar(p[i])
  }

  /** `str.upper()` restricted to ASCII: a-z become A-Z, all else is kept. */
  function UpperChar(c: char): char {
    if 'a' <= c <= 'z' then (c as int - 32) as char else c
  }

  function Upper(s: string): (r: string)
    ensures |r| == |s|
    ensures forall i :: 0 <= i < |s| ==> r[i] == UpperChar(s[i])
  {
    seq(|s|, i requires 0 <= i < |s| => UpperChar(s[i]))
  }

  /** `re.sub(r'[^A-Z0-9]', '', s)`: only plate characters survive, text
      made of plate characters only is kept whole, and every plate character
      keeps its number of occurrences (`KeepPlateCharsCounts`). */
  function KeepPlateChars(s: string): (r: string)
    ensures |r| <= |s|
    ensures forall i :: 0 <= i < |r| ==> IsPlateChar(r[i])
    ensures (forall i :: 0 <= i < |s| ==> IsPlateChar(s[i])) ==> r == s
  {
    if s == [] then []
    else
      assert s == [s[0]] + s[1..];
      (if IsPlateChar(s[0]) then [s[0]] else []) + KeepPlateChars(s[1..])
  }

  /** `normalize_plate(text)`: `None` for empty text, otherwise the cleaned,
      upper-cased text when that is a canonical plate. */
  function NormalizePlate(text: string): (r: Option<string>)
    ensures text == [] ==> r.None?
    ensures r.Some? ==> IsCanonical(r.value)
    ensures r.Some? <==> IsCanonical(KeepPlateChars(Upper(text)))
    ensures r.Some? ==> r.value == KeepPlateChars(Upper(text))
  {
    if text == [] then None
    else
      var plate := KeepPlateChars(Upper(text));
      if |plate| < MinPlateLength || |plate| > MaxPlateLength then None
      else Some(plate)
  }

  /** Each plate character occurs in the cleaned text exactly as often as in
      the input: nothing is lost and nothing is invented. */
  lemma {:induction false} KeepPlateCharsCounts(s: string, c: char)
    requires IsPlateChar(c)
    ensures multiset(KeepPlateChars(s))[c] == multiset(s)[c]
    decreases |s|
  {
    if s != [] {
      KeepPlateCharsCounts(s[1..], c);
      assert s == [s[0]] + s[1..];
    }
  }

  /** Removing plate characters distributes over concatenation, so tokens can
      be cleaned separately and joined. */
  lemma {:induction false} KeepPlateCharsConcat(s: string, t: string)
    ensures KeepPlateChars(s + t) == KeepPlateChars(s) + KeepPlateChars(t)
    decreases |s|
  {
    if s == [] {
      assert s + t == t;
    } else {
      assert (s + t)[1..] == s[1..] + t;
      KeepPlateCharsConcat(s[1..], t);
    }
  }

  lemma UpperConcat(s: string, t: string)
    ensures Upper(s + t) == Upper(s) + Upper(t)
  {
  }

  lemma UpperIdempotent(s: string)
    ensures Upper(Upper(s)) == Upper(s)
  {
  }

  /** A canonical plate is a fixed point of normalisation. */
  lemma NormalizeCanonical(p: string)
    requires IsCanonical(p)
    ensures NormalizePlate(p) == Some(p)
  {
    assert Upper(p) == p;
  }

  /** Normalisation is idempotent on its successful results. */
  lemma NormalizeIdempotent(text: string)
    requires NormalizePlate(text).Some?
    ensures NormalizePlate(NormalizePlate(text).value) == NormalizePlate(text)
  {
    NormalizeCanonical(NormalizePlate(text).value);
  }

  /** Normalisation ignores letter case. */
  lemma NormalizeIgnoresCase(text: string)
    ensures NormalizePlate(Upper(text)) == NormalizePlate(text)
  {
    UpperIdempotent(text);
  }

  lemma KeepPlateCharsSingle(c: char)
    ensures KeepPlateChars([c]) == if IsPlateChar(c) then [c] else []
  {
    assert [c][1..] == [];
  }

  /** Inserting a separator (any character that is not a plate character
      once upper-cased, such as '-', '.' or ' ') never changes the result. */
  lemma NormalizeIgnoresSeparator(s: string, c: char, t: string)
    requires !IsPlateChar(UpperChar(c))
    ensures NormalizePlate(s + [c] + t) == NormalizePlate(s + t)
  {
    var us, uc, ut := Upper(s), Upper([c]), Upper(t);
    assert uc == [UpperChar(c)];
    calc {
      KeepPlateChars(Upper(s + [c] + t));
      { UpperConcat(s + [c], t); UpperConcat(s, [c]); }
      KeepPlateChars(us + uc + ut);
      { KeepPlateCharsConcat(us + uc, ut); KeepPlateCharsConcat(us, uc); }
      KeepPlateChars(us) + KeepPlateChars(uc) + KeepPlateChars(ut);
      { KeepPlateCharsSingle(UpperChar(c)); }
      KeepPlateChars(us) + KeepPlateChars(ut);
      { KeepPlateCharsConcat(us, ut); UpperConcat(s, t); }
      KeepPlateChars(Upper(s + t));
    }
  }

  /** A sample input: "76a-222.22" is read as the plate "76A22222". */
  lemma NormalizeExample()
    ensures NormalizePlate("76a-222.22") == Some("76A22222")
  {
    DropDash();
    DropDot();
    ReadCleaned();
  }

  lemma DropDash()
    ensures NormalizePlate("76a-222.22") == NormalizePlate("76a222.22")
  {
    assert "76a-222.22" == "76a" + "-" + "222.22";
    assert "76a222.22" == "76a" + "222.22";
    NormalizeIgnoresSeparator("76a", '-', "222.22");
  }

  lemma DropDot()
    ensures NormalizePlate("76a222.22") == NormalizePlate("76a22222")
  {
    assert "76a222.22" == "76a222" + "." + "22";
    assert "76a22222" == "76a222" + "22";
    NormalizeIgnoresSeparator("76a222", '.', "22");
  }

  lemma ReadCleaned()
    ensures NormalizePlate("76a22222") == Some("76A22222")
  {
    UpperExample();
    CleanExample();
  }

  lemma UpperExample()
    ensures Upper("76a22222") == "76A22222"
  {
  }

  lemma CleanExample()
    ensures KeepPlateChars("76A22222") == "76A22222"
  {
    var u := "76A22222";
    assert u[0] == '7' && u[1] == '6' && u[2] == 'A' && u[3] == '2';
    assert u[4] == '2' && u[5] == '2' && u[6] == '2' && u[7] == '2';
    assert forall i :: 0 <= i < |u| ==> IsPlateChar(u[i]);
  }
}
