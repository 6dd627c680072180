/** Character classes and string helpers shared by the stores.

    A `string` is a sequence of Unicode scalar values.  White space follows
    Python's `str.strip` and `str.isspace`. */
module Text {

  datatype Option<+T> = None | Some(value: T)

  datatype Result<+T, +E> = Ok(value: T) | Err(error: E)

  /** The characters Python's `str.strip()` removes. */
  predicate IsSpace(c: char) {
    var n := c as int;
    || 9 <= n <= 13
    || 28 <= n <= 32
    || n in {0x85, 0xA0, 0x1680, 0x2028, 0x2029, 0x202F, 0x205F, 0x3000}
    || 0x2000 <= n <= 0x200A
  }

  /** They are the ASCII controls for white space and separation, the space, and
      the spaces and separators of Unicode. */
  lemma WhiteSpaceIs(c: char)
    ensures IsSpace(c) <==>
              || c in {'\t', '\n', '\U{B}', '\U{C}', '\r', '\U{1C}', '\U{1D}', '\U{1E}', '\U{1F}', ' ', '\U{85}', '\U{A0}'}
              || c in {'\U{1680}', '\U{2028}', '\U{2029}', '\U{202F}', '\U{205F}', '\U{3000}'}
              || '\U{2000}' <= c <= '\U{200A}'
  {
  }

  /** The first position from `i` on that does not hold white space. */
  function Lead(s: string, i: nat): (r: nat)
    requires i <= |s|
    ensures i <= r <= |s|
    ensures r < |s| ==> !IsSpace(s[r])
    ensures forall k | i <= k < r :: IsSpace(s[k])
    decreases |s| - i
  {
    if i < |s| && IsSpace(s[i]) then Lead(s, i + 1) else i
  }

  /** One past the last position before `j` that does not hold white space. */
  function Trail(s: string, i: nat, j: nat): (r: nat)
    requires i <= j <= |s|
    ensures i <= r <= j
    ensures i < r ==> !IsSpace(s[r - 1])
    ensures forall k | r <= k < j :: IsSpace(s[k])
    decreases j - i
  {
    if i < j && IsSpace(s[j - 1]) then Trail(s, i, j - 1) else j
  }

  function Strip(s: string): string {
    var i := Lead(s, 0);
    s[i..Trail(s, i, |s|)]
  }

  /** A string that `strip` leaves alone. */
  predicate Trimmed(s: string) {
    s == "" || (!IsSpace(s[0]) && !IsSpace(s[|s| - 1]))
  }

  lemma StripTrims(s: string)
    ensures Trimmed(Strip(s))
  {
    var i := Lead(s, 0);
    var j := Trail(s, i, |s|);
    if i < j {
      assert Strip(s)[0] == s[i] && Strip(s)[j - i - 1] == s[j - 1];
    }
  }

  lemma StripOfTrimmed(s: string)
    requires Trimmed(s)
    ensures Strip(s) == s
  {
  }

  /** What is left when the white space at both ends is gone. */
  lemma StripIs(before: string, s: string, after: string)
    requires Trimmed(s) && (s == "" ==> after == "")
    requires (forall i | 0 <= i < |before| :: IsSpace(before[i])) && (forall i | 0 <= i < |after| :: IsSpace(after[i]))
    ensures Strip(before + s + after) == s
  {
    var all := before + s + after;
    var i := Lead(all, 0);
    assert forall k | 0 <= k < |before| :: all[k] == before[k];
    assert i == |before| by {
      if s != "" {
        assert all[|before|] == s[0];
      }
    }
    var j := Trail(all, i, |all|);
    assert forall k | 0 <= k < |after| :: all[|before| + |s| + k] == after[k];
    assert j == |before| + |s| by {
      if s != "" {
        assert all[|before| + |s| - 1] == s[|s| - 1];
      }
    }
  }

  predicate OccursAt(s: string, t: string, i: nat) {
    i + |t| <= |s| && s[i..i + |t|] == t
  }

  /** Python's `t in s`. */
  predicate Contains(s: string, t: string) {
    exists i | 0 <= i <= |s| :: OccursAt(s, t, i)
  }

  lemma ContainsMiddle(before: string, t: string, after: string)
    ensures Contains(before + t + after, t)
  {
    assert OccursAt(before + t + after, t, |before|);
  }

  lemma ContainsSplit(s: string, t: string) returns (before: string, after: string)
    requires Contains(s, t)
    ensures s == before + t + after
  {
    var i :| 0 <= i <= |s| && OccursAt(s, t, i);
    before, after := s[..i], s[i + |t|..];
  }

  lemma ContainsTransitive(s: string, t: string, u: string)
    requires Contains(s, t) && Contains(t, u)
    ensures Contains(s, u)
  {
    var b1, a1 := ContainsSplit(s, t);
    var b2, a2 := ContainsSplit(t, u);
    assert s == (b1 + b2) + u + (a2 + a1);
    ContainsMiddle(b1 + b2, u, a2 + a1);
  }
}
