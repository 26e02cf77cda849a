/**
 * The next patch version (gfr/commands/hotfix.py:19-27): strip any leading
 * `v`s from the latest tag, split it on `.`, read three decimal numbers and
 * bump the last one. No tag gives the bootstrap version `0.0.1`.
 */
module Version {
  import opened Wrappers
  import opened Text

  /** Python's `s.lstrip(c)` for one character. */
  function LStrip(s: string, c: char): (r: string)
    ensures IsSuffix(r, s)
    ensures forall k :: 0 <= k < |s| - |r| ==> s[k] == c
    ensures |r| > 0 ==> r[0] != c
  {
    if |s| > 0 && s[0] == c then LStrip(s[1..], c) else s
  }

  /** Three pieces joined by dots. */
  function Dotted(a: string, b: string, c: string): string {
    a + "." + b + "." + c
  }

  /** `major.minor.patch` as `str` renders three naturals. */
  function Render(major: nat, minor: nat, patch: nat): string {
    Dotted(NatToString(major), NatToString(minor), NatToString(patch))
  }

  /**
   * `map(int, s.lstrip('v').split('.'))` unpacked into three names; `None`
   * where Python raises ValueError (not exactly three pieces, or a piece
   * that is not a decimal number).
   */
  function ParseVersion(s: string): Option<(nat, nat, nat)> {
    var parts := Split(LStrip(s, 'v'), '.');
    if |parts| != 3 then None
    else match (ParseNat(parts[0]), ParseNat(parts[1]), ParseNat(parts[2]))
      case (Some(major), Some(minor), Some(patch)) => Some((major, minor, patch))
      case _ => None
  }

  /**
   * `_get_next_patch_version`: `None` stands for the ValueError a
   * malformed tag raises. The result always reads back as the input's
   * triple with the patch number one higher.
   */
  function NextPatchVersion(tag: string): (r: Option<string>)
    ensures tag == "" ==> r == Some("0.0.1")
    ensures tag != "" ==> (r.Some? <==> ParseVersion(tag).Some?)
    ensures tag != "" && r.Some? ==>
              var (major, minor, patch) := ParseVersion(tag).value;
              ParseVersion(r.value) == Some((major, minor, patch + 1))
    ensures r.Some? ==> VersionText(r.value)
  {
    if tag == "" then
      assert VersionText("0.0.1") by {
        assert "0.0.1" == ['0', '.', '0', '.', '1'];
      }
      Some("0.0.1")
    else match ParseVersion(tag)
      case None => None
      case Some((major, minor, patch)) =>
        RenderRoundTrip(major, minor, patch + 1);
        RenderChars(major, minor, patch + 1);
        Some(Render(major, minor, patch + 1))
  }

  /** A rendered version reads back as its triple. */
  lemma RenderRoundTrip(major: nat, minor: nat, patch: nat)
    ensures ParseVersion(Render(major, minor, patch)) == Some((major, minor, patch))
  {
    var x, y, z := NatToString(major), NatToString(minor), NatToString(patch);
    DottedParses("", x, y, z);
    DigitsOfNat(major);
    DigitsOfNat(minor);
    DigitsOfNat(patch);
    assert "" + Dotted(x, y, z) == Render(major, minor, patch);
  }

  /** Only digits and dots. */
  predicate VersionText(s: string) {
    forall k :: 0 <= k < |s| ==> IsDigit(s[k]) || s[k] == '.'
  }

  /** A rendered version holds only digits and dots. */
  lemma RenderChars(major: nat, minor: nat, patch: nat)
    ensures VersionText(Render(major, minor, patch))
  {
    var x, y, z := NatToString(major), NatToString(minor), NatToString(patch);
    var s := Render(major, minor, patch);
    forall k | 0 <= k < |s| ensures IsDigit(s[k]) || s[k] == '.' {
      if k < |x| {
        assert s[k] == x[k];
      } else if k == |x| {
      } else if k < |x| + 1 + |y| {
        assert s[k] == y[k - |x| - 1];
      } else if k == |x| + 1 + |y| {
      } else {
        assert s[k] == z[k - |x| - |y| - 2];
      }
    }
  }

  lemma {:induction false} LStripPrefix(vs: string, rest: string, c: char)
    requires forall k :: 0 <= k < |vs| ==> vs[k] == c
    requires |rest| > 0 && rest[0] != c
    ensures LStrip(vs + rest, c) == rest
  {
    if |vs| > 0 {
      assert (vs + rest)[1..] == vs[1..] + rest;
      LStripPrefix(vs[1..], rest, c);
    } else {
      assert vs + rest == rest;
    }
  }

  lemma DigitsHaveNoDot(s: string)
    requires AllDigits(s)
    ensures '.' !in s
  {
  }

  predicate AllSame(s: string, c: char) {
    forall k :: 0 <= k < |s| ==> s[k] == c
  }

  lemma ParseOfPieces(s: string, a: string, b: string, c: string)
    requires Split(LStrip(s, 'v'), '.') == [a, b, c]
    requires |a| > 0 && AllDigits(a) && |b| > 0 && AllDigits(b) && |c| > 0 && AllDigits(c)
    ensures ParseVersion(s) == Some((DigitsValue(a), DigitsValue(b), DigitsValue(c)))
  {
  }

  lemma {:induction false} SplitThree(a: string, b: string, c: string)
    requires '.' !in a && '.' !in b && '.' !in c
    ensures Split(Dotted(a, b, c), '.') == [a, b, c]
  {
    var tail := b + ['.'] + c;
    assert Dotted(a, b, c) == a + ['.'] + tail;
    SplitCons(a, '.', tail);
    SplitCons(b, '.', c);
    SplitNoSep(c, '.');
    assert [a] + ([b] + [c]) == [a, b, c];
  }

  /** Three non-empty digit strings joined by dots behind some `v`s read back as their values. */
  lemma {:induction false} DottedParses(vs: string, a: string, b: string, c: string)
    requires AllSame(vs, 'v')
    requires |a| > 0 && AllDigits(a) && |b| > 0 && AllDigits(b) && |c| > 0 && AllDigits(c)
    ensures ParseVersion(vs + Dotted(a, b, c)) == Some((DigitsValue(a), DigitsValue(b), DigitsValue(c)))
  {
    DigitsHaveNoDot(a);
    DigitsHaveNoDot(b);
    DigitsHaveNoDot(c);
    var body := Dotted(a, b, c);
    assert body[0] == a[0];
    LStripPrefix(vs, body, 'v');
    SplitThree(a, b, c);
    ParseOfPieces(vs + body, a, b, c);
  }

  /**
   * Any tag of the form `v…vX.Y.Z`, whatever leading zeros its numbers
   * carry, reads back as `(X, Y, Z)`.
   */
  lemma RenderedParses(vs: string, za: string, zb: string, zc: string, major: nat, minor: nat, patch: nat)
    requires AllSame(vs, 'v') && AllSame(za, '0') && AllSame(zb, '0') && AllSame(zc, '0')
    ensures ParseVersion(vs + Dotted(za + NatToString(major), zb + NatToString(minor), zc + NatToString(patch)))
         == Some((major, minor, patch))
  {
    ParseRendered(za, major);
    ParseRendered(zb, minor);
    ParseRendered(zc, patch);
    DottedParses(vs, za + NatToString(major), zb + NatToString(minor), zc + NatToString(patch));
  }

  /** The next version of a tag whose triple is known. */
  lemma NextOfParsed(tag: string, major: nat, minor: nat, patch: nat)
    requires tag != "" && ParseVersion(tag) == Some((major, minor, patch))
    ensures NextPatchVersion(tag) == Some(Render(major, minor, patch + 1))
  {
  }

  /**
   * For a tag `vX.Y.Z` (leading `v`s and leading zeros allowed) the next
   * version is `X.Y.(Z+1)`: major and minor unchanged, zeros normalised.
   */
  lemma NextOfTag(vs: string, za: string, zb: string, zc: string, major: nat, minor: nat, patch: nat)
    requires AllSame(vs, 'v') && AllSame(za, '0') && AllSame(zb, '0') && AllSame(zc, '0')
    ensures NextPatchVersion(vs + Dotted(za + NatToString(major), zb + NatToString(minor), zc + NatToString(patch)))
         == Some(Render(major, minor, patch + 1))
  {
    var a, b, c := za + NatToString(major), zb + NatToString(minor), zc + NatToString(patch);
    RenderedParses(vs, za, zb, zc, major, minor, patch);
    var tag := vs + Dotted(a, b, c);
    assert |tag| == |vs| + |a| + |b| + |c| + 2;
    NextOfParsed(tag, major, minor, patch);
  }

  /** The tag a run creates, `"v" + version`, is read back by the next run. */
  lemma NextOfReleaseTag(major: nat, minor: nat, patch: nat)
    ensures NextPatchVersion("v" + Render(major, minor, patch)) == Some(Render(major, minor, patch + 1))
  {
    var x, y, z := NatToString(major), NatToString(minor), NatToString(patch);
    DottedParses("v", x, y, z);
    DigitsOfNat(major);
    DigitsOfNat(minor);
    DigitsOfNat(patch);
    NextOfParsed("v" + Render(major, minor, patch), major, minor, patch);
  }

  /** Two hotfixes in a row: the tag one run creates makes the next run bump the patch again. */
  lemma SuccessiveHotfixes(major: nat, minor: nat, patch: nat)
    ensures NextPatchVersion("v" + Render(major, minor, patch)) == Some(Render(major, minor, patch + 1))
    ensures NextPatchVersion("v" + Render(major, minor, patch + 1)) == Some(Render(major, minor, patch + 2))
  {
    NextOfReleaseTag(major, minor, patch);
    NextOfReleaseTag(major, minor, patch + 1);
  }
}
