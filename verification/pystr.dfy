/** The Python `str` methods the feature derivation relies on, over `seq<char>`:
    `strip()`, `split(sep)`, `lower()` and the substring test `sub in s`. */
module PyStr {
  import Seqs

  /** Python's `str.isspace()` for a single character (the whitespace `strip()` removes). */
  predicate IsSpace(c: char)
  {
    || c == ' ' || c == '\t' || c == '\n' || c == '\r' || c == '\U{000B}' || c == '\U{000C}'
    || '\U{001C}' <= c <= '\U{001F}'
    || c == '\U{0085}' || c == '\U{00A0}' || c == '\U{1680}'
    || '\U{2000}' <= c <= '\U{200A}'
    || c == '\U{2028}' || c == '\U{2029}' || c == '\U{202F}' || c == '\U{205F}' || c == '\U{3000}'
  }

  /** Number of leading whitespace characters of `s`. */
  function LeadingSpace(s: string): (k: nat)
    ensures k <= |s|
    ensures forall i :: 0 <= i < k ==> IsSpace(s[i])
    ensures k < |s| ==> !IsSpace(s[k])
  {
    Seqs.FirstIndex(s, c => !IsSpace(c))
  }

  /** Position where the trailing whitespace of `s` starts. */
  function TrailingSpace(s: string): (k: nat)
    ensures k <= |s|
    ensures forall i :: k <= i < |s| ==> IsSpace(s[i])
    ensures 0 < k ==> !IsSpace(s[k - 1])
  {
    if |s| == 0 then 0
    else if IsSpace(s[|s| - 1]) then TrailingSpace(s[..|s| - 1])
    else |s|
  }

  /** Python `s.strip()`: the longest infix of `s` that neither starts nor ends with whitespace,
      obtained by removing only whitespace from both ends. */
  function Strip(s: string): (r: string)
    ensures |r| == 0 || (!IsSpace(r[0]) && !IsSpace(r[|r| - 1]))
    ensures |r| == 0 <==> forall i :: 0 <= i < |s| ==> IsSpace(s[i])
    ensures LeadingSpace(s) + |r| <= |s|
    ensures r == s[LeadingSpace(s)..LeadingSpace(s) + |r|]
    ensures forall j :: LeadingSpace(s) + |r| <= j < |s| ==> IsSpace(s[j])
  {
    var a := LeadingSpace(s);
    var b := TrailingSpace(s[a..]);
    StripShape(s, a, b);
    s[a..][..b]
  }

  lemma StripShape(s: string, a: nat, b: nat)
    requires a == LeadingSpace(s) && b == TrailingSpace(s[a..])
    ensures a + b <= |s| && s[a..][..b] == s[a..a + b]
    ensures b == 0 || (!IsSpace(s[a]) && !IsSpace(s[a + b - 1]))
    ensures b == 0 <==> forall i :: 0 <= i < |s| ==> IsSpace(s[i])
    ensures forall j :: a + b <= j < |s| ==> IsSpace(s[j])
  {
    var t := s[a..];
    assert forall j :: a <= j < |s| ==> t[j - a] == s[j];
    if b > 0 {
      assert t[0] == s[a] && t[b - 1] == s[a + b - 1];
    }
  }

  /** Stripping a string that has no whitespace at either end leaves it unchanged. */
  lemma StripClean(s: string)
    requires |s| == 0 || (!IsSpace(s[0]) && !IsSpace(s[|s| - 1]))
    ensures Strip(s) == s
  {
  }

  /** Stripping removes exactly the whitespace outside a non-blank core `s[i..j]`. */
  lemma StripAround(s: string, i: nat, j: nat)
    requires i < j <= |s|
    requires forall k :: 0 <= k < i ==> IsSpace(s[k])
    requires forall k :: j <= k < |s| ==> IsSpace(s[k])
    requires !IsSpace(s[i]) && !IsSpace(s[j - 1])
    ensures Strip(s) == s[i..j]
  {
    var a, r := LeadingSpace(s), Strip(s);
    assert a == i;
    assert |r| > 0;
  }

  /** `strip()` is idempotent. */
  lemma StripIdempotent(s: string)
    ensures Strip(Strip(s)) == Strip(s)
  {
    StripClean(Strip(s));
  }

  /** Number of occurrences of `c` in `s`. */
  function Count(s: string, c: char): nat
  {
    if |s| == 0 then 0 else (if s[0] == c then 1 else 0) + Count(s[1..], c)
  }

  /** Python `s.split(sep)` for a one-character separator: the maximal separator-free pieces,
      always at least one (the empty string splits to `['']`), one more than there are separators. */
  function Split(s: string, sep: char): (r: seq<string>)
    ensures |r| == Count(s, sep) + 1
    ensures forall i :: 0 <= i < |r| ==> sep !in r[i]
  {
    if |s| == 0 then [""]
    else if s[0] == sep then [""] + Split(s[1..], sep)
    else
      var rest := Split(s[1..], sep);
      [[s[0]] + rest[0]] + rest[1..]
  }

  /** Python `sep.join(parts)`. */
  function Join(parts: seq<string>, sep: char): string
  {
    if |parts| == 0 then ""
    else if |parts| == 1 then parts[0]
    else parts[0] + [sep] + Join(parts[1..], sep)
  }

  /** Splitting loses nothing: joining the pieces with the separator gives back the string. */
  lemma {:induction false} JoinSplit(s: string, sep: char)
    ensures Join(Split(s, sep), sep) == s
  {
    if |s| > 0 {
      JoinSplit(s[1..], sep);
      var rest := Split(s[1..], sep);
      if s[0] == sep {
        assert Split(s, sep)[1..] == rest;
        assert s == [sep] + s[1..];
      } else {
        var r := Split(s, sep);
        if |rest| == 1 {
          assert s == [s[0]] + s[1..];
        } else {
          assert r[1..] == rest[1..];
          assert Join(rest, sep) == rest[0] + [sep] + Join(rest[1..], sep);
          assert s == [s[0]] + s[1..];
        }
      }
    }
  }

  /** A string without the separator splits into itself alone. */
  lemma {:induction false} SplitNoSeparator(s: string, sep: char)
    requires sep !in s
    ensures Split(s, sep) == [s]
  {
    if |s| > 0 {
      assert sep !in s[1..] by {
        forall i | 0 <= i < |s[1..]| ensures s[1..][i] != sep {
          assert s[1..][i] == s[i + 1];
        }
      }
      SplitNoSeparator(s[1..], sep);
      assert [s[0]] + s[1..] == s;
    }
  }

  /** The pieces of `a + sep + b` are the pieces of `a` followed by the pieces of `b`. */
  lemma {:induction false} SplitConcat(a: string, sep: char, b: string)
    ensures Split(a + [sep] + b, sep) == Split(a, sep) + Split(b, sep)
  {
    var s := a + [sep] + b;
    if |a| == 0 {
      assert s == [sep] + b;
      assert s[1..] == b;
    } else {
      assert s[0] == a[0];
      assert s[1..] == a[1..] + [sep] + b;
      SplitConcat(a[1..], sep, b);
    }
  }

  /** An ASCII or Latin-1 capital letter: 'A'..'Z' and 'À'..'Þ' except the sign '×'. */
  predicate IsCapital(c: char)
  {
    || 'A' <= c <= 'Z'
    || ('\U{00C0}' <= c <= '\U{00DE}' && c != '\U{00D7}')
  }

  /** An ASCII or Latin-1 small letter: 'a'..'z' and 'à'..'þ' except the sign '÷'. */
  predicate IsSmall(c: char)
  {
    || 'a' <= c <= 'z'
    || ('\U{00E0}' <= c <= '\U{00FE}' && c != '\U{00F7}')
  }

  /** The lower-case form of one character under Python `str.lower()`:
      ASCII and Latin-1 capitals map to their small letters, which sit 32 code points later;
      every other character is left alone. */
  function LowerChar(c: char): (r: char)
    ensures !IsCapital(r)
    ensures IsCapital(c) ==> IsSmall(r) && r as int == c as int + 32
    ensures !IsCapital(c) ==> r == c
  {
    if 'A' <= c <= 'Z' then (c as int + 32) as char
    else if '\U{00C0}' <= c <= '\U{00DE}' && c != '\U{00D7}' then (c as int + 32) as char
    else c
  }

  /** Python `s.lower()`, character by character: no capital is left, every capital becomes
      its small letter, and every other character is kept in place. */
  function Lower(s: string): (r: string)
    ensures |r| == |s|
    ensures forall i :: 0 <= i < |r| ==> !IsCapital(r[i])
    ensures forall i :: 0 <= i < |s| && IsCapital(s[i]) ==> IsSmall(r[i]) && r[i] as int == s[i] as int + 32
    ensures forall i :: 0 <= i < |s| && !IsCapital(s[i]) ==> r[i] == s[i]
    ensures forall i :: 0 <= i < |s| ==> r[i] == LowerChar(s[i])
  {
    seq(|s|, i requires 0 <= i < |s| => LowerChar(s[i]))
  }

  /** Lower-casing is idempotent. */
  lemma LowerIdempotent(s: string)
    ensures Lower(Lower(s)) == Lower(s)
  {
  }

  /** Python `sub in s`: `sub` occurs in `s` as a contiguous block. */
  predicate Contains(s: string, sub: string)
  {
    exists i | 0 <= i <= |s| :: OccursAt(s, sub, i)
  }

  /** `sub` occurs in `s` starting at position `i`. */
  predicate OccursAt(s: string, sub: string, i: int)
  {
    0 <= i && i + |sub| <= |s| && s[i..i + |sub|] == sub
  }

  /** An occurrence of `sub` at a known position witnesses `sub in s`. */
  lemma ContainsAt(s: string, sub: string, i: nat)
    requires i + |sub| <= |s| && s[i..i + |sub|] == sub
    ensures Contains(s, sub)
  {
    assert OccursAt(s, sub, i);
  }

  /** Occurrence is transitive: a string containing `mid` contains everything `mid` contains. */
  lemma ContainsTransitive(s: string, mid: string, sub: string)
    requires Contains(s, mid) && Contains(mid, sub)
    ensures Contains(s, sub)
  {
    var i :| 0 <= i <= |s| && OccursAt(s, mid, i);
    var j :| 0 <= j <= |mid| && OccursAt(mid, sub, j);
    assert forall k :: 0 <= k < |sub| ==> s[i + j + k] == mid[j + k] == sub[k] by {
      forall k | 0 <= k < |sub| ensures s[i + j + k] == mid[j + k] == sub[k] {
        assert s[i..i + |mid|][j + k] == mid[j + k];
        assert mid[j..j + |sub|][k] == sub[k];
      }
    }
    assert s[i + j..i + j + |sub|] == sub;
    assert OccursAt(s, sub, i + j);
  }
}
