/** `normalize_string` (modules/utils.py): strip the ends, then replace every
    run of whitespace by one space.  Which characters count as whitespace is
    `Text.IsSpace`; nothing below depends on the particular set, except that
    the space character is in it. */
module Utils {
  import opened Text

  /** The regular-expression substitution `re.sub(r"\s+", " ", s)`. */
  function Collapse(s: string): string
    decreases |s|
  {
    if |s| == 0 then []
    else if IsSpace(s[0]) then [' '] + Collapse(TrimLeft(s[1..]))
    else [s[0]] + Collapse(s[1..])
  }

  /** `normalize_string(s)` */
  function Normalize(s: string): string {
    Collapse(Strip(s))
  }

  /** The non-whitespace characters of `s`, in order. */
  function Solid(s: string): string
    decreases |s|
  {
    if |s| == 0 then [] else (if IsSpace(s[0]) then [] else [s[0]]) + Solid(s[1..])
  }

  /** Every whitespace character is a plain space and no two are adjacent. */
  ghost predicate Collapsed(t: string) {
    forall i :: 0 <= i < |t| && IsSpace(t[i]) ==> t[i] == ' ' && (i + 1 < |t| ==> !IsSpace(t[i + 1]))
  }

  /** What `normalize_string` can return: collapsed, with no whitespace at either end. */
  ghost predicate Normalized(t: string) {
    Collapsed(t) && (|t| > 0 ==> !IsSpace(t[0]) && !IsSpace(t[|t| - 1]))
  }

  lemma {:induction false} SolidConcat(a: string, b: string)
    ensures Solid(a + b) == Solid(a) + Solid(b)
    decreases |a|
  {
    if |a| == 0 {
      assert a + b == b;
    } else {
      assert (a + b)[0] == a[0] && (a + b)[1..] == a[1..] + b;
      SolidConcat(a[1..], b);
    }
  }

  lemma {:induction false} SolidOfSpaces(s: string)
    requires forall i :: 0 <= i < |s| ==> IsSpace(s[i])
    ensures Solid(s) == []
    decreases |s|
  {
    if |s| > 0 {
      SolidOfSpaces(s[1..]);
    }
  }

  lemma SolidTrimLeft(s: string)
    ensures Solid(TrimLeft(s)) == Solid(s)
  {
    var r := TrimLeft(s);
    var k := |s| - |r|;
    assert s == s[..k] + r;
    SolidConcat(s[..k], r);
    SolidOfSpaces(s[..k]);
  }

  lemma SolidTrimRight(s: string)
    ensures Solid(TrimRight(s)) == Solid(s)
  {
    var r := TrimRight(s);
    assert s == r + s[|r|..];
    SolidConcat(r, s[|r|..]);
    SolidOfSpaces(s[|r|..]);
  }

  /** The first character of the collapsed text is whitespace exactly when the
      first character of the input is; the same holds for the last one. */
  lemma {:induction false} CollapseEnds(s: string)
    ensures |Collapse(s)| > 0 <==> |s| > 0
    ensures |s| > 0 ==> (IsSpace(Collapse(s)[0]) <==> IsSpace(s[0]))
    ensures |s| > 0 ==> (IsSpace(Collapse(s)[|Collapse(s)| - 1]) <==> IsSpace(s[|s| - 1]))
    decreases |s|
  {
    if |s| > 0 {
      if IsSpace(s[0]) {
        var t := TrimLeft(s[1..]);
        CollapseEnds(t);
        if |t| > 0 {
          assert t[|t| - 1] == s[|s| - 1];
        } else {
          assert IsSpace(' ');
          if |s| > 1 {
            assert IsSpace(s[1..][|s| - 2]);
          }
        }
      } else {
        CollapseEnds(s[1..]);
        if |s| > 1 {
          assert s[1..][|s| - 2] == s[|s| - 1];
        }
      }
    }
  }

  lemma {:induction false} CollapseCollapsed(s: string)
    ensures Collapsed(Collapse(s))
    decreases |s|
  {
    if |s| > 0 {
      var c := Collapse(s);
      if IsSpace(s[0]) {
        var t := TrimLeft(s[1..]);
        CollapseCollapsed(t);
        CollapseEnds(t);
        assert c == [' '] + Collapse(t);
        forall i | 0 <= i < |c| && IsSpace(c[i])
          ensures c[i] == ' ' && (i + 1 < |c| ==> !IsSpace(c[i + 1]))
        {
          if i > 0 {
            assert c[i] == Collapse(t)[i - 1];
          }
        }
      } else {
        CollapseCollapsed(s[1..]);
        assert c == [s[0]] + Collapse(s[1..]);
        forall i | 0 <= i < |c| && IsSpace(c[i])
          ensures c[i] == ' ' && (i + 1 < |c| ==> !IsSpace(c[i + 1]))
        {
          assert c[i] == Collapse(s[1..])[i - 1];
        }
      }
    }
  }

  lemma {:induction false} CollapseSolid(s: string)
    ensures Solid(Collapse(s)) == Solid(s)
    decreases |s|
  {
    if |s| > 0 {
      if IsSpace(s[0]) {
        var t := TrimLeft(s[1..]);
        CollapseSolid(t);
        SolidTrimLeft(s[1..]);
        assert IsSpace(' ');
        SolidConcat([' '], Collapse(t));
      } else {
        CollapseSolid(s[1..]);
        SolidConcat([s[0]], Collapse(s[1..]));
      }
    }
  }

  /** A collapsed text is left as it is by the substitution. */
  lemma {:induction false} CollapseFixpoint(t: string)
    requires Collapsed(t)
    ensures Collapse(t) == t
    decreases |t|
  {
    if |t| > 0 {
      assert Collapsed(t[1..]) by {
        forall i | 0 <= i < |t[1..]| && IsSpace(t[1..][i])
          ensures t[1..][i] == ' ' && (i + 1 < |t[1..]| ==> !IsSpace(t[1..][i + 1]))
        {
          assert t[1..][i] == t[i + 1];
        }
      }
      if IsSpace(t[0]) {
        assert |t| > 1 ==> !IsSpace(t[1]);
        assert TrimLeft(t[1..]) == t[1..];
      }
      CollapseFixpoint(t[1..]);
      assert t == [t[0]] + t[1..];
    }
  }

  /** The result of `normalize_string` has no whitespace at either end, every
      whitespace character in it is a single space between two non-whitespace
      characters, and it holds exactly the non-whitespace characters of the input,
      in their original order. */
  lemma NormalizeShape(s: string)
    ensures Normalized(Normalize(s))
    ensures Solid(Normalize(s)) == Solid(s)
  {
    var u := Strip(s);
    CollapseCollapsed(u);
    CollapseEnds(u);
    CollapseSolid(u);
    SolidTrimLeft(s);
    SolidTrimRight(TrimLeft(s));
  }

  /** Text already in normal form is returned unchanged. */
  lemma NormalizeFixpoint(t: string)
    requires Normalized(t)
    ensures Normalize(t) == t
  {
    assert TrimLeft(t) == t;
    assert TrimRight(t) == t;
    CollapseFixpoint(t);
  }

  /** `normalize_string` is idempotent. */
  lemma NormalizeIdempotent(s: string)
    ensures Normalize(Normalize(s)) == Normalize(s)
  {
    NormalizeShape(s);
    NormalizeFixpoint(Normalize(s));
  }

  /** The result is empty exactly when the input is all whitespace. */
  lemma NormalizeEmpty(s: string)
    ensures Normalize(s) == [] <==> forall i :: 0 <= i < |s| ==> IsSpace(s[i])
  {
    if forall i :: 0 <= i < |s| ==> IsSpace(s[i]) {
      assert Strip(s) == [];
    } else {
      var i :| 0 <= i < |s| && !IsSpace(s[i]);
      SolidHasChar(s, i);
      NormalizeShape(s);
    }
  }

  lemma {:induction false} SolidHasChar(s: string, i: int)
    requires 0 <= i < |s| && !IsSpace(s[i])
    ensures Solid(s) != []
    decreases i
  {
    if i > 0 && IsSpace(s[0]) {
      SolidHasChar(s[1..], i - 1);
    }
  }
}
