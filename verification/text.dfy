/**
 * Strings and bytes: the `strings.Split`/`strings.Join` pair, decimal
 * rendering (`%d`) and decimal scanning.
 */
module Text {
  import opened Wrappers

  /** A Go `byte`. */
  type byte = x: int | 0 <= x < 256

  /** Number of occurrences of `d` in `s`. */
  function Count(s: string, d: char): nat {
    if |s| == 0 then 0 else (if s[0] == d then 1 else 0) + Count(s[1..], d)
  }

  /** `strings.Join(parts, string(d))`. */
  function Join(parts: seq<string>, d: char): string {
    if |parts| == 0 then ""
    else if |parts| == 1 then parts[0]
    else parts[0] + [d] + Join(parts[1..], d)
  }

  /**
   * `strings.Split(s, string(d))`: the maximal separator-free pieces of `s`,
   * one more than there are separators (so the empty string gives `[""]`).
   */
  function Split(s: string, d: char): (parts: seq<string>)
    ensures |parts| == Count(s, d) + 1
    ensures forall i :: 0 <= i < |parts| ==> d !in parts[i]
  {
    if |s| == 0 then [""]
    else
      var rest := Split(s[1..], d);
      if s[0] == d then [""] + rest
      else [[s[0]] + rest[0]] + rest[1..]
  }

  /** Joining the pieces of a split gives back the original string. */
  lemma {:induction false} JoinSplit(s: string, d: char)
    ensures Join(Split(s, d), d) == s
  {
    if |s| > 0 {
      var rest := Split(s[1..], d);
      JoinSplit(s[1..], d);
      if s[0] == d {
        assert Split(s, d) == [""] + rest;
        assert ([""] + rest)[1..] == rest;
      } else {
        var parts := [[s[0]] + rest[0]] + rest[1..];
        assert Split(s, d) == parts;
        if |rest| == 1 {
          assert parts == [[s[0]] + rest[0]];
          assert rest[0] == Join(rest, d);
        } else {
          assert parts[1..] == rest[1..];
          assert Join(rest, d) == rest[0] + [d] + Join(rest[1..], d);
          assert Join(parts, d) == [s[0]] + rest[0] + [d] + Join(rest[1..], d);
        }
        assert s == [s[0]] + s[1..];
      }
    }
  }

  /** A separator-free string splits into itself. */
  lemma {:induction false} SplitNoSeparator(p: string, d: char)
    requires d !in p
    ensures Split(p, d) == [p]
  {
    if |p| > 0 {
      assert d !in p[1..] by {
        forall i | 0 <= i < |p[1..]| ensures p[1..][i] != d {
          assert p[1..][i] == p[i + 1];
        }
      }
      SplitNoSeparator(p[1..], d);
      assert [p[0]] + p[1..] == p;
    }
  }

  /** A separator-free prefix followed by a separator is split off as one piece. */
  lemma {:induction false} SplitPrefix(p: string, d: char, rest: string)
    requires d !in p
    ensures Split(p + [d] + rest, d) == [p] + Split(rest, d)
  {
    var s := p + [d] + rest;
    if |p| == 0 {
      assert s == [d] + rest;
      assert s[1..] == rest;
    } else {
      assert d !in p[1..] by {
        forall i | 0 <= i < |p[1..]| ensures p[1..][i] != d {
          assert p[1..][i] == p[i + 1];
        }
      }
      SplitPrefix(p[1..], d, rest);
      assert s[1..] == p[1..] + [d] + rest;
      assert s[0] == p[0];
      assert [p[0]] + p[1..] == p;
    }
  }

  /** Splitting a join of separator-free pieces gives back the pieces. */
  lemma {:induction false} SplitJoin(parts: seq<string>, d: char)
    requires |parts| > 0
    requires forall i :: 0 <= i < |parts| ==> d !in parts[i]
    ensures Split(Join(parts, d), d) == parts
  {
    if |parts| == 1 {
      SplitNoSeparator(parts[0], d);
    } else {
      SplitJoin(parts[1..], d);
      SplitPrefix(parts[0], d, Join(parts[1..], d));
      assert [parts[0]] + parts[1..] == parts;
    }
  }

  /** Joining a non-empty tail after a first piece puts one separator between them. */
  lemma JoinCons(p: string, rest: seq<string>, d: char)
    requires |rest| > 0
    ensures Join([p] + rest, d) == p + [d] + Join(rest, d)
  {
    assert ([p] + rest)[1..] == rest;
  }

  // ---------------------------------------------------------------- decimals

  predicate IsDigit(c: char) {
    '0' <= c <= '9'
  }

  /** The digit character for `n < 10`. */
  function DigitChar(n: nat): (c: char)
    requires n < 10
    ensures IsDigit(c)
  {
    ('0' as int + n) as char
  }

  /** `fmt`'s `%d` rendering of a non-negative number: no sign, no leading zero. */
  function Show(n: nat): (s: string)
    ensures |s| > 0
    ensures forall i :: 0 <= i < |s| ==> IsDigit(s[i])
  {
    if n < 10 then [DigitChar(n)] else Show(n / 10) + [DigitChar(n % 10)]
  }

  /** The value of a string of decimal digits (leading zeros allowed). */
  function ValueOf(s: string): nat
    requires forall i :: 0 <= i < |s| ==> IsDigit(s[i])
  {
    if |s| == 0 then 0
    else
      assert IsDigit(s[|s| - 1]);
      ValueOf(s[..|s| - 1]) * 10 + (s[|s| - 1] as int - '0' as int)
  }

  /** Length of the longest prefix of `s` made of digits. */
  function DigitRun(s: string): (k: nat)
    ensures k <= |s|
    ensures forall i :: 0 <= i < k ==> IsDigit(s[i])
    ensures k < |s| ==> !IsDigit(s[k])
  {
    if |s| == 0 || !IsDigit(s[0]) then 0 else 1 + DigitRun(s[1..])
  }

  /**
   * Scans an unsigned decimal at the front of `s` the way `fmt`'s `%d` does:
   * the longest run of digits, at least one; returns its value and the rest.
   */
  function ScanNat(s: string): (r: Option<(nat, string)>)
    ensures r.Some? ==> |r.value.1| < |s| && r.value.1 == s[|s| - |r.value.1|..]
    ensures r.None? <==> (|s| == 0 || !IsDigit(s[0]))
  {
    var k := DigitRun(s);
    if k == 0 then None else Some((ValueOf(s[..k]), s[k..]))
  }

  /** Reading back what `Show` renders gives the number. */
  lemma {:induction false} ValueOfShow(n: nat)
    ensures ValueOf(Show(n)) == n
  {
    if n >= 10 {
      ValueOfShow(n / 10);
      var s := Show(n);
      assert s[..|s| - 1] == Show(n / 10);
    }
  }

  /** The digit run of a string of digits followed by a non-digit is exactly those digits. */
  lemma {:induction false} DigitRunPrefix(ds: string, rest: string)
    requires forall i :: 0 <= i < |ds| ==> IsDigit(ds[i])
    requires |rest| == 0 || !IsDigit(rest[0])
    ensures DigitRun(ds + rest) == |ds|
  {
    if |ds| > 0 {
      assert (ds + rest)[1..] == ds[1..] + rest;
      DigitRunPrefix(ds[1..], rest);
    } else {
      assert ds + rest == rest;
    }
  }

  /** Scanning a rendered number stops exactly at the end of its digits. */
  lemma ScanShow(n: nat, rest: string)
    requires |rest| == 0 || !IsDigit(rest[0])
    ensures ScanNat(Show(n) + rest) == Some((n, rest))
  {
    var s := Show(n) + rest;
    DigitRunPrefix(Show(n), rest);
    assert s[..|Show(n)|] == Show(n);
    assert s[|Show(n)|..] == rest;
    ValueOfShow(n);
  }
}
