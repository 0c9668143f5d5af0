/** Strings as the source uses them: code-point order, prefixes and cutting at a separator.
    Code-point order on these strings is the byte order of their UTF-8 encodings. */
module Text {

  /** `strings.Compare(a, b) < 0`. */
  predicate Less(a: string, b: string) {
    |b| > 0 && (|a| == 0 || a[0] < b[0] || (a[0] == b[0] && Less(a[1..], b[1..])))
  }

  predicate AtMost(a: string, b: string) {
    a == b || Less(a, b)
  }

  lemma {:induction false} LessIrreflexive(a: string)
    ensures !Less(a, a)
  {
    if a != "" {
      LessIrreflexive(a[1..]);
    }
  }

  lemma {:induction false} LessTransitive(a: string, b: string, c: string)
    requires Less(a, b) && Less(b, c)
    ensures Less(a, c)
  {
    if |a| > 0 && a[0] == b[0] && b[0] == c[0] {
      LessTransitive(a[1..], b[1..], c[1..]);
    }
  }

  lemma {:induction false} LessTotal(a: string, b: string)
    ensures a == b || Less(a, b) || Less(b, a)
  {
    if a != "" && b != "" && a[0] == b[0] {
      LessTotal(a[1..], b[1..]);
      if a[1..] == b[1..] {
        assert a == [a[0]] + a[1..] && b == [b[0]] + b[1..];
      }
    }
  }

  lemma LessAsymmetric(a: string, b: string)
    requires Less(a, b)
    ensures !AtMost(b, a)
  {
    LessIrreflexive(a);
    if Less(b, a) {
      LessTransitive(a, b, a);
    }
  }

  lemma AtMostTransitive(a: string, b: string, c: string)
    requires AtMost(a, b) && AtMost(b, c)
    ensures AtMost(a, c)
  {
    if a != b && b != c {
      LessTransitive(a, b, c);
    }
  }

  lemma AtMostTotal(a: string, b: string)
    ensures AtMost(a, b) || AtMost(b, a)
  {
    LessTotal(a, b);
  }

  lemma AtMostAntisymmetric(a: string, b: string)
    requires AtMost(a, b) && AtMost(b, a)
    ensures a == b
  {
    if a != b {
      LessAsymmetric(a, b);
    }
  }

  /** Every string that lies between two strings with a common prefix has that prefix. */
  lemma {:induction false} PrefixesAreContiguous(prefix: string, low: string, middle: string, high: string)
    requires prefix <= low && prefix <= high
    requires AtMost(low, middle) && AtMost(middle, high)
    ensures prefix <= middle
  {
    if prefix != "" && low != middle && middle != high {
      assert low[0] == prefix[0] == high[0];
      assert middle[0] == prefix[0];
      assert prefix[1..] <= low[1..] && prefix[1..] <= high[1..];
      PrefixesAreContiguous(prefix[1..], low[1..], middle[1..], high[1..]);
    }
  }

  /** A prefix never comes after the string it starts. */
  lemma {:induction false} PrefixAtMost(prefix: string, s: string)
    requires prefix <= s
    ensures AtMost(prefix, s)
  {
    if prefix != "" {
      assert prefix[1..] <= s[1..];
      PrefixAtMost(prefix[1..], s[1..]);
      if prefix[1..] == s[1..] {
        assert prefix == [prefix[0]] + prefix[1..] && s == [s[0]] + s[1..];
      }
    }
  }
}
