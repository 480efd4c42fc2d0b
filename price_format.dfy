/** The price check of the dish form: `isFloat(val)` accepts the empty
    string and the strings matching `^[0-9]+(\.[0-9]*)?$`. The check is a
    three-state scanner; its language is proved to be the pattern's. */
module PriceFormat {

  predicate IsDigit(c: char)
  {
    '0' <= c <= '9'
  }

  predicate AllDigits(s: string)
  {
    forall i :: 0 <= i < |s| ==> IsDigit(s[i])
  }

  /** `v` splits at `i` into a digit run, a point, and a digit run. */
  predicate PointAt(v: string, i: int)
  {
    0 <= i < |v| && AllDigits(v[..i]) && v[i] == '.' && AllDigits(v[i + 1..])
  }

  /** The language of `^[0-9]+(\.[0-9]*)?$`: one or more digits, then
      optionally a point followed by any number of digits. */
  ghost predicate MatchesPattern(v: string)
  {
    (v != [] && AllDigits(v)) || exists i :: 1 <= i && PointAt(v, i)
  }

  /** Where the scanner is: before the first digit, in the integer part,
      in the fraction, or past a character the pattern cannot take. */
  datatype Scan = Start | Whole | Fraction | Reject

  function Step(st: Scan, c: char): Scan
  {
    match st
    case Start => if IsDigit(c) then Whole else Reject
    case Whole => if IsDigit(c) then Whole else if c == '.' then Fraction else Reject
    case Fraction => if IsDigit(c) then Fraction else Reject
    case Reject => Reject
  }

  function Run(st: Scan, s: string): Scan
    decreases |s|
  {
    if s == [] then st else Run(Step(st, s[0]), s[1..])
  }

  /** `isFloat` */
  predicate IsFloat(v: string)
  {
    v == "" || Run(Start, v) == Whole || Run(Start, v) == Fraction
  }

  lemma {:induction false} RunReject(s: string)
    ensures Run(Reject, s) == Reject
  {
    if s != [] {
      RunReject(s[1..]);
    }
  }

  lemma {:induction false} RunFraction(s: string)
    ensures Run(Fraction, s) == (if AllDigits(s) then Fraction else Reject)
  {
    if s != [] {
      if IsDigit(s[0]) {
        RunFraction(s[1..]);
        assert AllDigits(s) <==> AllDigits(s[1..]) by {
          if AllDigits(s[1..]) {
            forall i | 0 <= i < |s| ensures IsDigit(s[i]) {
              if i > 0 { assert s[i] == s[1..][i - 1]; }
            }
          }
        }
      } else {
        RunReject(s[1..]);
      }
    }
  }

  /** From inside the integer part, the scanner stays there exactly on a
      digit run and ends in the fraction exactly on digits, a point, digits. */
  lemma {:induction false} RunWhole(s: string)
    ensures Run(Whole, s) == Whole <==> AllDigits(s)
    ensures Run(Whole, s) == Fraction <==> exists i :: PointAt(s, i)
  {
    if s == [] {
      return;
    }
    var t := s[1..];
    if IsDigit(s[0]) {
      RunWhole(t);
      assert AllDigits(s) <==> AllDigits(t) by {
        if AllDigits(t) {
          forall i | 0 <= i < |s| ensures IsDigit(s[i]) {
            if i > 0 { assert s[i] == t[i - 1]; }
          }
        }
      }
      if exists i :: PointAt(t, i) {
        var i :| PointAt(t, i);
        assert s[..i + 1] == [s[0]] + t[..i];
        assert s[i + 2..] == t[i + 1..];
        assert PointAt(s, i + 1);
      }
      if exists i :: PointAt(s, i) {
        var i :| PointAt(s, i);
        assert i != 0;
        assert t[..i - 1] == s[1..i];
        assert t[i..] == s[i + 1..];
        assert PointAt(t, i - 1);
      }
    } else if s[0] == '.' {
      RunFraction(t);
      assert !AllDigits(s) by { assert !IsDigit(s[0]); }
      if AllDigits(t) {
        assert PointAt(s, 0);
      }
      forall i | 0 < i < |s| ensures !PointAt(s, i) {
        assert s[..i][0] == s[0];
      }
    } else {
      RunReject(t);
      assert !AllDigits(s) by { assert !IsDigit(s[0]); }
      forall i | 0 < i < |s| ensures !PointAt(s, i) {
        assert s[..i][0] == s[0];
      }
    }
  }

  /** The scanner decides exactly the empty string and the pattern. */
  lemma IsFloatDecidesPattern(v: string)
    ensures IsFloat(v) <==> v == "" || MatchesPattern(v)
  {
    if v != [] {
      var t := v[1..];
      if IsDigit(v[0]) {
        RunWhole(t);
        assert AllDigits(v) <==> AllDigits(t) by {
          if AllDigits(t) {
            forall i | 0 <= i < |v| ensures IsDigit(v[i]) {
              if i > 0 { assert v[i] == t[i - 1]; }
            }
          }
        }
        if exists i :: PointAt(t, i) {
          var i :| PointAt(t, i);
          assert v[..i + 1] == [v[0]] + t[..i];
          assert v[i + 2..] == t[i + 1..];
          assert PointAt(v, i + 1);
        }
        if exists i :: 1 <= i && PointAt(v, i) {
          var i :| 1 <= i && PointAt(v, i);
          assert t[..i - 1] == v[1..i];
          assert t[i..] == v[i + 1..];
          assert PointAt(t, i - 1);
        }
      } else {
        RunReject(t);
        assert !AllDigits(v) by { assert !IsDigit(v[0]); }
        forall i | 1 <= i < |v| ensures !PointAt(v, i) {
          assert v[..i][0] == v[0];
        }
      }
    }
  }

  /** The inputs the form's behaviour is usually described by. */
  lemma PriceExamples()
    ensures IsFloat("12.30") && IsFloat("0") && IsFloat("") && IsFloat("12.")
    ensures !IsFloat("12.3.4") && !IsFloat("-5") && !IsFloat(".5")
  {
  }
}
