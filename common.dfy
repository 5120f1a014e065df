/** Small shared vocabulary: optional values (Java's nullable references) and text helpers. */
module Wrappers {

  /** A Java reference that may be null: None stands for null. */
  datatype Option<+T> = None | Some(value: T)
}

module Text {

  /** The decimal digit for 0..9. */
  function Digit(d: nat): (c: char)
    requires d < 10
  {
    "0123456789"[d]
  }

  /** Decimal rendering of a natural number, most significant digit first. */
  function NatToString(n: nat): (s: string)
    ensures |s| >= 1
    decreases n
  {
    if n < 10 then [Digit(n)] else NatToString(n / 10) + [Digit(n % 10)]
  }

  /** Java's Long.toString: decimal, with a leading '-' for negative values. */
  function IntToString(i: int): (s: string)
    ensures |s| >= 1
  {
    if i < 0 then "-" + NatToString(-i) else NatToString(i)
  }

  /**
   * Java's String.trim() drops leading and trailing characters whose code is at most U+0020,
   * so a string is blank (trims to "") exactly when every character is at most ' '.
   */
  predicate IsBlank(s: string)
  {
    forall i :: 0 <= i < |s| ==> s[i] <= ' '
  }

  /** String.stripLeading for the characters trim() drops: the string after its leading
      characters at most ' '. */
  function TrimStart(s: string): (t: string)
    ensures |t| <= |s|
  {
    if |s| > 0 && s[0] <= ' ' then TrimStart(s[1..]) else s
  }

  /** The string before its trailing characters at most ' '. */
  function TrimEnd(s: string): (t: string)
    ensures |t| <= |s|
  {
    if |s| > 0 && s[|s| - 1] <= ' ' then TrimEnd(s[..|s| - 1]) else s
  }

  /** String.trim(): both ends stripped. */
  function Trim(s: string): string
  {
    TrimEnd(TrimStart(s))
  }

  /** Stripping the leading characters leaves nothing exactly when the string is blank. */
  lemma {:induction false} TrimStartEmptyIffBlank(s: string)
    ensures TrimStart(s) == [] <==> IsBlank(s)
    decreases |s|
  {
    if |s| > 0 && s[0] <= ' ' {
      TrimStartEmptyIffBlank(s[1..]);
      assert IsBlank(s) <==> IsBlank(s[1..]) by {
        if IsBlank(s[1..]) {
          forall i | 0 <= i < |s| ensures s[i] <= ' ' {
            if i > 0 { assert s[i] == s[1..][i - 1]; }
          }
        }
        if IsBlank(s) {
          forall i | 0 <= i < |s[1..]| ensures s[1..][i] <= ' ' {
            assert s[1..][i] == s[i + 1];
          }
        }
      }
    } else if |s| > 0 {
      assert !IsBlank(s);
    }
  }

  /** Stripping the trailing characters leaves nothing exactly when the string is blank. */
  lemma {:induction false} TrimEndEmptyIffBlank(s: string)
    ensures TrimEnd(s) == [] <==> IsBlank(s)
    decreases |s|
  {
    if |s| > 0 && s[|s| - 1] <= ' ' {
      var init := s[..|s| - 1];
      TrimEndEmptyIffBlank(init);
      assert IsBlank(s) <==> IsBlank(init) by {
        if IsBlank(init) {
          forall i | 0 <= i < |s| ensures s[i] <= ' ' {
            if i < |s| - 1 { assert s[i] == init[i]; }
          }
        }
        if IsBlank(s) {
          forall i | 0 <= i < |init| ensures init[i] <= ' ' {
            assert init[i] == s[i];
          }
        }
      }
    } else if |s| > 0 {
      assert !IsBlank(s);
    }
  }

  /** The blank test is Java's: a string is blank exactly when it trims to "". */
  lemma BlankIffTrimsToEmpty(s: string)
    ensures IsBlank(s) <==> Trim(s) == []
  {
    var t := TrimStart(s);
    TrimStartEmptyIffBlank(s);
    TrimEndEmptyIffBlank(t);
    if t != [] {
      assert t[0] > ' ' by {
        TrimStartKeepsVisibleHead(s);
      }
      assert !IsBlank(t);
    }
  }

  /** A non-empty result of stripping the leading characters starts with a visible one. */
  lemma {:induction false} TrimStartKeepsVisibleHead(s: string)
    ensures TrimStart(s) != [] ==> TrimStart(s)[0] > ' '
    decreases |s|
  {
    if |s| > 0 && s[0] <= ' ' {
      TrimStartKeepsVisibleHead(s[1..]);
    }
  }
}
