/**
 * The two e-mail checks of the forms. The strict one is
 * `/^[^\s@]+@[^\s@]+\.[^\s@]+$/` (the login card and the story showcase),
 * the loose one is the unanchored `/\S+@\S+\.\S+/` (both contact-form
 * pages). Each is given twice: as the set of strings the regular
 * expression's grammar accepts (a split of the string into its parts), and
 * as a direct scan; each scan is proved to accept exactly those strings.
 */
module EmailPatterns {
  import opened Text

  /** A character of `[^\s@]`. */
  predicate Plain(c: char)
  {
    !IsSpace(c) && c != '@'
  }

  /** A non-empty run of `[^\s@]`. */
  predicate PlainRun(t: string)
  {
    |t| > 0 && forall k :: 0 <= k < |t| ==> Plain(t[k])
  }

  /** `s` splits as local part, `@`, domain name, `.`, last label, each part a `[^\s@]+`. */
  ghost predicate StrictPattern(s: string)
  {
    exists p, d :: 0 < p && p + 1 < d < |s| - 1 && s[p] == '@' && s[d] == '.'
                   && PlainRun(s[..p]) && PlainRun(s[p + 1..d]) && PlainRun(s[d + 1..])
  }

  /** The first index of `c` in `s`, or `|s|` when there is none. */
  function IndexOf(s: string, c: char): (i: nat)
    ensures i <= |s|
    ensures i < |s| ==> s[i] == c
    ensures forall k :: 0 <= k < i ==> s[k] != c
  {
    if s == [] then 0
    else if s[0] == c then 0
    else 1 + IndexOf(s[1..], c)
  }

  /** `t` has a `.` with at least one character on each side. */
  predicate DotInside(t: string)
  {
    exists k :: 0 < k < |t| - 1 && t[k] == '.'
  }

  predicate NoAt(t: string)
  {
    forall k :: 0 <= k < |t| ==> t[k] != '@'
  }

  /**
   * The strict check as a scan: no white space anywhere, exactly one `@`
   * (the first `@` is not the first character and none follows it), and a
   * `.` strictly inside the part after the `@`.
   */
  function IsStrictEmail(s: string): (b: bool)
    ensures b <==> StrictPattern(s)
  {
    StrictScanSound(s);
    StrictScanComplete(s);
    StrictScan(s)
  }

  predicate StrictScan(s: string)
  {
    var p := IndexOf(s, '@');
    NoSpace(s) && 0 < p < |s| && NoAt(s[p + 1..]) && DotInside(s[p + 1..])
  }

  lemma StrictScanSound(s: string)
    ensures StrictScan(s) ==> StrictPattern(s)
  {
    if StrictScan(s) {
      var p := IndexOf(s, '@');
      var rest := s[p + 1..];
      var k :| 0 < k < |rest| - 1 && rest[k] == '.';
      var d := p + 1 + k;
      assert s[d] == '.';
      assert PlainRun(s[..p]);
      assert PlainRun(s[p + 1..d]) by {
        assert forall j :: 0 <= j < d - p - 1 ==> s[p + 1..d][j] == rest[j];
      }
      assert PlainRun(s[d + 1..]) by {
        assert s[d + 1..] == rest[k + 1..];
      }
    }
  }

  /** The pieces of a split are free of white space, so the whole string is. */
  lemma SplitHasNoSpace(s: string, p: int, d: int)
    requires 0 < p && p + 1 < d < |s| - 1 && s[p] == '@' && s[d] == '.'
    requires PlainRun(s[..p]) && PlainRun(s[p + 1..d]) && PlainRun(s[d + 1..])
    ensures NoSpace(s)
  {
    forall j | 0 <= j < |s|
      ensures !IsSpace(s[j])
    {
      if j < p {
        assert s[j] == s[..p][j];
      } else if p < j < d {
        assert s[j] == s[p + 1..d][j - p - 1];
      } else if d < j {
        assert s[j] == s[d + 1..][j - d - 1];
      }
    }
  }

  /** The part after the `@` of a split holds no `@` and a `.` strictly inside. */
  lemma SplitDomain(s: string, p: int, d: int)
    requires 0 < p && p + 1 < d < |s| - 1 && s[p] == '@' && s[d] == '.'
    requires PlainRun(s[p + 1..d]) && PlainRun(s[d + 1..])
    ensures NoAt(s[p + 1..]) && DotInside(s[p + 1..])
  {
    var rest := s[p + 1..];
    forall j | 0 <= j < |rest|
      ensures rest[j] != '@'
    {
      if j < d - p - 1 {
        assert rest[j] == s[p + 1..d][j];
      } else if j > d - p - 1 {
        assert rest[j] == s[d + 1..][j - (d - p)];
      }
    }
    assert rest[d - p - 1] == '.';
  }

  lemma StrictScanComplete(s: string)
    ensures StrictPattern(s) ==> StrictScan(s)
  {
    if StrictPattern(s) {
      var p, d :| 0 < p && p + 1 < d < |s| - 1 && s[p] == '@' && s[d] == '.'
                  && PlainRun(s[..p]) && PlainRun(s[p + 1..d]) && PlainRun(s[d + 1..]);
      SplitHasNoSpace(s, p, d);
      assert forall j :: 0 <= j < p ==> s[j] == s[..p][j];
      assert IndexOf(s, '@') == p;
      SplitDomain(s, p, d);
    }
  }

  /**
   * What the strict check accepts, in words: no white space, exactly one
   * `@`, which is not the first character, and after it a `.` with at least
   * one character on each side.
   */
  lemma StrictEmailShape(s: string)
    ensures IsStrictEmail(s) <==>
              NoSpace(s) && exists p :: 0 < p < |s| && s[p] == '@' && NoAt(s[..p])
                                        && NoAt(s[p + 1..]) && DotInside(s[p + 1..])
  {
    var p := IndexOf(s, '@');
    if IsStrictEmail(s) {
      assert NoAt(s[..p]);
    }
    if exists q :: 0 < q < |s| && s[q] == '@' && NoAt(s[..q]) && NoAt(s[q + 1..]) && DotInside(s[q + 1..]) {
      var q :| 0 < q < |s| && s[q] == '@' && NoAt(s[..q]) && NoAt(s[q + 1..]) && DotInside(s[q + 1..]);
      assert forall k :: 0 <= k < q ==> s[k] == s[..q][k];
      assert p == q;
    }
  }

  /** The length of the run of non-white-space characters that starts at `i`. */
  function RunLength(s: string, i: nat): (n: nat)
    requires i <= |s|
    ensures i + n <= |s|
    ensures forall k :: i <= k < i + n ==> !IsSpace(s[k])
    ensures i + n < |s| ==> IsSpace(s[i + n])
    decreases |s| - i
  {
    if i == |s| || IsSpace(s[i]) then 0 else 1 + RunLength(s, i + 1)
  }

  /** `s[i..j]`, `s[p+1..d]` and `s[d+1..j]` are the runs of one `\S+@\S+\.\S+` match. */
  ghost predicate LooseSplit(s: string, i: int, p: int, d: int, j: int)
  {
    0 <= i < p && p + 1 < d && d + 1 < j <= |s| && s[p] == '@' && s[d] == '.'
    && NoSpace(s[i..p]) && NoSpace(s[p + 1..d]) && NoSpace(s[d + 1..j])
  }

  /**
   * `s` contains a piece `\S+ @ \S+ . \S+`: `s[i..p]`, `s[p+1..d]` and
   * `s[d+1..j]` are non-empty runs without white space around an `@` at `p`
   * and a `.` at `d`.
   */
  ghost predicate LoosePattern(s: string)
  {
    exists i, p, d, j :: LooseSplit(s, i, p, d, j)
  }

  /**
   * The loose check as a scan: some `@` has a non-white-space character
   * before it, and the run of non-white-space characters right after it
   * holds a `.` with a character of the run on each side.
   */
  function IsLooseEmail(s: string): (b: bool)
    ensures b <==> LoosePattern(s)
  {
    LooseScanSound(s);
    LooseScanComplete(s);
    LooseScan(s)
  }

  predicate LooseAt(s: string, p: int)
  {
    0 < p < |s| && s[p] == '@' && !IsSpace(s[p - 1])
    && DotInside(s[p + 1..p + 1 + RunLength(s, p + 1)])
  }

  predicate LooseScan(s: string)
  {
    exists p :: 0 < p < |s| && LooseAt(s, p)
  }

  lemma LooseScanSound(s: string)
    ensures LooseScan(s) ==> LoosePattern(s)
  {
    if LooseScan(s) {
      var p :| 0 < p < |s| && LooseAt(s, p);
      var n := RunLength(s, p + 1);
      var run := s[p + 1..p + 1 + n];
      var k :| 0 < k < |run| - 1 && run[k] == '.';
      var d := p + 1 + k;
      assert forall j :: 0 <= j < n ==> run[j] == s[p + 1 + j];
      assert s[d] == '.';
      assert NoSpace(s[p - 1..p]);
      assert NoSpace(s[p + 1..d]);
      assert NoSpace(s[d + 1..d + 2]);
      assert LooseSplit(s, p - 1, p, d, d + 2);
    }
  }

  /** The run after the `@` of a match reaches past the character after the `.`. */
  lemma LooseSplitRun(s: string, i: int, p: int, d: int, j: int)
    requires LooseSplit(s, i, p, d, j)
    ensures RunLength(s, p + 1) >= d + 1 - p
  {
    forall k | p + 1 <= k < d + 2
      ensures !IsSpace(s[k])
    {
      if k < d {
        assert s[k] == s[p + 1..d][k - p - 1];
      } else if k == d + 1 {
        assert s[k] == s[d + 1..j][0];
      }
    }
    RunLengthCovers(s, p + 1, d + 2);
  }

  /** A stretch without white space starting at `i` lies inside the run that starts there. */
  lemma {:induction false} RunLengthCovers(s: string, i: nat, m: nat)
    requires i <= m <= |s|
    requires forall k :: i <= k < m ==> !IsSpace(s[k])
    ensures RunLength(s, i) >= m - i
    decreases m - i
  {
    if i < m {
      RunLengthCovers(s, i + 1, m);
    }
  }

  lemma LooseScanComplete(s: string)
    ensures LoosePattern(s) ==> LooseScan(s)
  {
    if LoosePattern(s) {
      var i, p, d, j :| LooseSplit(s, i, p, d, j);
      assert s[p - 1] == s[i..p][p - 1 - i];
      LooseSplitRun(s, i, p, d, j);
      var n := RunLength(s, p + 1);
      var run := s[p + 1..p + 1 + n];
      assert run[d - p - 1] == '.';
      assert LooseAt(s, p);
    }
  }

  /** Every address the strict check accepts, the loose check accepts too. */
  lemma StrictImpliesLoose(s: string)
    requires IsStrictEmail(s)
    ensures IsLooseEmail(s)
  {
    var p, d :| 0 < p && p + 1 < d < |s| - 1 && s[p] == '@' && s[d] == '.'
                && PlainRun(s[..p]) && PlainRun(s[p + 1..d]) && PlainRun(s[d + 1..]);
    assert s[..p] == s[0..p];
    assert s[d + 1..] == s[d + 1..|s|];
    assert LooseSplit(s, 0, p, d, |s|);
  }

  /** The loose check also accepts text around an address, which the strict one refuses. */
  lemma LooseAcceptsSurroundingText()
    ensures IsLooseEmail("mail: a@b.c") && !IsStrictEmail("mail: a@b.c")
  {
    var s := "mail: a@b.c";
    assert s[5] == ' ';
    assert NoSpace(s[6..7]) && NoSpace(s[8..9]) && NoSpace(s[10..11]);
    assert LooseSplit(s, 6, 7, 9, 11);
    assert !NoSpace(s);
    assert !StrictScan(s);
  }
}
