/** The JavaScript string operations the application relies on: truthiness,
    `toLowerCase`/`toUpperCase` (ASCII letters only), `includes`, `startsWith`,
    `split`, the `<` order on strings, number-to-string conversion in template
    literals and `parseInt(s, 10)`. */
module Text {
  import opened Wrappers

  /** JavaScript truthiness of a string-valued field: defined and non-empty. */
  predicate Truthy(v: Option<string>)
  {
    v.Some? && v.value != ""
  }

  function LowerChar(c: char): char
  {
    if 'A' <= c <= 'Z' then (c as int + 32) as char else c
  }

  function UpperChar(c: char): char
  {
    if 'a' <= c <= 'z' then (c as int - 32) as char else c
  }

  /** `s.toLowerCase()` on ASCII letters. */
  function Lower(s: string): string
  {
    seq(|s|, i requires 0 <= i < |s| => LowerChar(s[i]))
  }

  /** `s.charAt(0).toUpperCase() + s.slice(1)`. */
  function Capitalize(s: string): (r: string)
    ensures |r| == |s|
    ensures |s| > 0 ==> r[0] == UpperChar(s[0]) && r[1..] == s[1..]
  {
    if s == [] then [] else [UpperChar(s[0])] + s[1..]
  }

  /** `s.startsWith(p)`. */
  predicate StartsWith(s: string, p: string)
  {
    |p| <= |s| && s[..|p|] == p
  }

  /** `t` occurs in `s` at position `i`. */
  ghost predicate OccursAt(s: string, t: string, i: int)
  {
    0 <= i && i + |t| <= |s| && s[i..i + |t|] == t
  }

  /** `s.includes(t)`, computed by trying each start position in turn. */
  predicate Includes(s: string, t: string)
    decreases |s|
  {
    StartsWith(s, t) || (|s| > 0 && Includes(s[1..], t))
  }

  /** `includes` holds exactly when `t` occurs somewhere in `s`. */
  lemma {:induction false} IncludesIff(s: string, t: string)
    ensures Includes(s, t) <==> exists i :: OccursAt(s, t, i)
    decreases |s|
  {
    if StartsWith(s, t) {
      assert OccursAt(s, t, 0);
    } else if |s| > 0 {
      IncludesIff(s[1..], t);
      if exists i :: OccursAt(s[1..], t, i) {
        var i :| OccursAt(s[1..], t, i);
        assert s[1..][i..i + |t|] == s[i + 1..i + 1 + |t|];
        assert OccursAt(s, t, i + 1);
      }
      if exists i :: OccursAt(s, t, i) {
        var i :| OccursAt(s, t, i);
        if i > 0 {
          assert s[1..][i - 1..i - 1 + |t|] == s[i..i + |t|];
          assert OccursAt(s[1..], t, i - 1);
        }
      }
    }
  }

  /** Every string includes the empty string and itself. */
  lemma IncludesTrivial(s: string)
    ensures Includes(s, "") && Includes(s, s)
  {
    assert StartsWith(s, "");
    assert StartsWith(s, s);
  }

  /** JavaScript's `a < b` on strings: lexicographic order of the characters. */
  predicate Less(a: string, b: string)
    decreases |a|
  {
    if |a| == 0 then |b| > 0
    else if |b| == 0 then false
    else if a[0] != b[0] then a[0] < b[0]
    else Less(a[1..], b[1..])
  }

  lemma {:induction false} LessIrreflexive(a: string)
    ensures !Less(a, a)
    decreases |a|
  {
    if |a| > 0 {
      LessIrreflexive(a[1..]);
    }
  }

  /** Exactly one of `a < b`, `a == b`, `b < a` holds. */
  lemma {:induction false} LessTrichotomy(a: string, b: string)
    ensures a == b || Less(a, b) || Less(b, a)
    ensures !(Less(a, b) && Less(b, a))
    ensures a == b ==> !Less(a, b)
    decreases |a|
  {
    if a == b {
      LessIrreflexive(a);
    } else if |a| > 0 && |b| > 0 && a[0] == b[0] {
      LessTrichotomy(a[1..], b[1..]);
    }
  }

  lemma {:induction false} LessTransitive(a: string, b: string, c: string)
    requires Less(a, b) && Less(b, c)
    ensures Less(a, c)
    decreases |a|
  {
    if |a| > 0 && a[0] == b[0] && b[0] == c[0] {
      LessTransitive(a[1..], b[1..], c[1..]);
    }
  }

  predicate IsDigit(c: char)
  {
    '0' <= c <= '9'
  }

  predicate AllDigits(s: string)
  {
    forall i :: 0 <= i < |s| ==> IsDigit(s[i])
  }

  function DigitChar(d: int): char
    requires 0 <= d < 10
  {
    ('0' as int + d) as char
  }

  /** The decimal text of `n`, as a template literal `${n}` renders it. */
  function NatToString(n: nat): (r: string)
    ensures |r| >= 1 && AllDigits(r)
    decreases n
  {
    if n < 10 then [DigitChar(n)] else NatToString(n / 10) + [DigitChar(n % 10)]
  }

  /** The value of a string of decimal digits. */
  function DigitsValue(ds: string): nat
    requires AllDigits(ds)
    decreases |ds|
  {
    if ds == [] then 0
    else DigitsValue(ds[..|ds| - 1]) * 10 + (ds[|ds| - 1] as int - '0' as int)
  }

  /** The white space that `parseInt` skips before the number: tab, the
      line terminators, vertical tab, form feed, the byte order mark and
      every space separator (Unicode category Zs). */
  predicate IsWhiteSpace(c: char)
  {
    || c in {'\t', '\n', '\r', '\U{000B}', '\U{000C}', '\U{FEFF}', '\U{2028}', '\U{2029}'}
    || c in {' ', '\U{00A0}', '\U{1680}', '\U{202F}', '\U{205F}', '\U{3000}'}
    || '\U{2000}' <= c <= '\U{200A}'
  }

  /** The input with its leading white space removed. */
  function TrimStart(s: string): (r: string)
    ensures |r| <= |s| && r == s[|s| - |r|..]
    ensures forall i :: 0 <= i < |s| - |r| ==> IsWhiteSpace(s[i])
    ensures |r| > 0 ==> !IsWhiteSpace(r[0])
    decreases |s|
  {
    if |s| > 0 && IsWhiteSpace(s[0]) then TrimStart(s[1..]) else s
  }

  /** The longest prefix of `s` made of decimal digits. */
  function DigitPrefix(s: string): (r: string)
    ensures |r| <= |s| && r == s[..|r|]
    ensures AllDigits(r)
    ensures |r| < |s| ==> !IsDigit(s[|r|])
    decreases |s|
  {
    if |s| > 0 && IsDigit(s[0]) then [s[0]] + DigitPrefix(s[1..]) else []
  }

  /** `parseInt(s, 10)`: leading white space, an optional sign, then the
      longest run of digits; `None` is `NaN` (no digit there). */
  function ParseInt(s: string): Option<int>
  {
    var t := TrimStart(s);
    var negative := |t| > 0 && t[0] == '-';
    var body := if |t| > 0 && (t[0] == '-' || t[0] == '+') then t[1..] else t;
    var ds := DigitPrefix(body);
    if ds == [] then None
    else if negative then Some(-(DigitsValue(ds) as int))
    else Some(DigitsValue(ds))
  }

  lemma {:induction false} DigitsValueOfNat(n: nat)
    ensures DigitsValue(NatToString(n)) == n
    decreases n
  {
    if n >= 10 {
      DigitsValueOfNat(n / 10);
      var s := NatToString(n);
      assert s[..|s| - 1] == NatToString(n / 10);
    }
  }

  lemma DigitNotWhiteSpace(c: char)
    requires IsDigit(c)
    ensures !IsWhiteSpace(c)
  {
  }

  /** `parseInt` reads back the decimal text of every natural number. */
  lemma ParseIntNatToString(n: nat)
    ensures ParseInt(NatToString(n)) == Some(n)
  {
    var s := NatToString(n);
    assert TrimStart(s) == s by {
      DigitNotWhiteSpace(s[0]);
    }
    var ds := DigitPrefix(s);
    assert ds == s;
    DigitsValueOfNat(n);
  }

  lemma {:induction false} TrimStartWhiteSpace(w: string, s: string)
    requires forall i :: 0 <= i < |w| ==> IsWhiteSpace(w[i])
    ensures TrimStart(w + s) == TrimStart(s)
    decreases |w|
  {
    if |w| == 0 {
      assert w + s == s;
    } else {
      assert (w + s)[0] == w[0];
      assert (w + s)[1..] == w[1..] + s;
      TrimStartWhiteSpace(w[1..], s);
    }
  }

  /** Leading white space, such as the ideographic space U+3000, does not
      change what `parseInt` reads. */
  lemma ParseIntSkipsWhiteSpace(w: string, n: nat)
    requires forall i :: 0 <= i < |w| ==> IsWhiteSpace(w[i])
    ensures ParseInt(w + NatToString(n)) == Some(n)
  {
    TrimStartWhiteSpace(w, NatToString(n));
    ParseIntNatToString(n);
  }

  /** `s.split(sep)` for a one-character separator. */
  function Split(s: string, sep: char): (parts: seq<string>)
    ensures |parts| >= 1
    decreases |s|
  {
    if s == [] then [""]
    else
      var rest := Split(s[1..], sep);
      if s[0] == sep then [""] + rest else [[s[0]] + rest[0]] + rest[1..]
  }

  /** `parts.join(sep)`. */
  function Join(parts: seq<string>, sep: char): string
    decreases |parts|
  {
    if parts == [] then ""
    else if |parts| == 1 then parts[0]
    else parts[0] + [sep] + Join(parts[1..], sep)
  }

  /** Splitting and joining again gives back the original string. */
  lemma {:induction false} JoinSplit(s: string, sep: char)
    ensures Join(Split(s, sep), sep) == s
    decreases |s|
  {
    if s != [] {
      var rest := Split(s[1..], sep);
      JoinSplit(s[1..], sep);
      if s[0] == sep {
        assert Split(s, sep) == [""] + rest;
        assert ([""] + rest)[1..] == rest;
      } else {
        var parts := [[s[0]] + rest[0]] + rest[1..];
        assert Split(s, sep) == parts;
        if |rest| > 1 {
          assert parts[1..] == rest[1..];
          assert Join(rest, sep) == rest[0] + [sep] + Join(rest[1..], sep);
        }
      }
    }
  }

  /** No segment produced by `split` contains the separator. */
  lemma {:induction false} SplitSegments(s: string, sep: char)
    ensures forall k :: 0 <= k < |Split(s, sep)| ==> sep !in Split(s, sep)[k]
    decreases |s|
  {
    if s != [] {
      SplitSegments(s[1..], sep);
    }
  }

  /** A string with no separator splits into itself alone. */
  lemma {:induction false} SplitNoSeparator(t: string, sep: char)
    requires sep !in t
    ensures Split(t, sep) == [t]
    decreases |t|
  {
    if t != [] {
      SplitNoSeparator(t[1..], sep);
      assert [t[0]] + t[1..] == t;
    }
  }

  /** The text before the first separator is the first segment. */
  lemma {:induction false} SplitAtFirstSeparator(a: string, b: string, sep: char)
    requires sep !in a
    ensures Split(a + [sep] + b, sep) == [a] + Split(b, sep)
    decreases |a|
  {
    var s := a + [sep] + b;
    if a == [] {
      assert s[1..] == b;
    } else {
      assert s[1..] == a[1..] + [sep] + b;
      SplitAtFirstSeparator(a[1..], b, sep);
      assert [a[0]] + a[1..] == a;
    }
  }
}
