/**
 * The changelog side of finishing a hotfix (gfr/commands/hotfix.py:29-38,
 * 103-117, 164): collecting the "Fixed" items, rendering the Markdown entry
 * and the release notes, and writing the entry into CHANGELOG.md.
 */
module Changelog {
  import opened Wrappers
  import opened Text

  /**
   * The items typed before the first empty line; `None` when the input ends
   * first (Python's `input()` raises EOFError, which aborts the run).
   */
  function ItemsBeforeBlank(lines: seq<string>): (r: Option<seq<string>>)
    ensures r.None? <==> forall k :: 0 <= k < |lines| ==> lines[k] != ""
    ensures r.Some? ==>
              var n := |r.value|;
              n < |lines| && lines[n] == "" && r.value == lines[..n]
              && forall k :: 0 <= k < n ==> lines[k] != ""
  {
    if |lines| == 0 then None
    else if lines[0] == "" then Some([])
    else match ItemsBeforeBlank(lines[1..])
      case None => None
      case Some(rest) => Some([lines[0]] + rest)
  }

  /**
   * `_prompt_for_changelog_items` over a canned sequence of input lines:
   * read lines until an empty one and keep the non-empty ones in order.
   */
  method PromptForChangelogItems(lines: seq<string>) returns (items: Option<seq<string>>)
    ensures items == ItemsBeforeBlank(lines)
  {
    var acc: seq<string> := [];
    var i := 0;
    while true
      invariant 0 <= i <= |lines|
      invariant acc == lines[..i]
      invariant forall k :: 0 <= k < i ==> lines[k] != ""
      decreases |lines| - i
    {
      if i == |lines| {
        return None;
      }
      var item := lines[i];
      if item == "" {
        break;
      }
      acc := acc + [item];
      i := i + 1;
    }
    items := Some(acc);
  }

  /** `f"{http_url}/releases/tag/{tag_name}"`. */
  function ReleaseLink(httpUrl: string, tag: string): string {
    httpUrl + "/releases/tag/" + tag
  }

  /** Each item rendered as a Markdown bullet, `f"- {item}"`. */
  function Bullets(items: seq<string>): (r: seq<string>)
    ensures |r| == |items|
    ensures forall k :: 0 <= k < |items| ==> r[k] == "- " + items[k]
  {
    seq(|items|, k requires 0 <= k < |items| => "- " + items[k])
  }

  /** The first line of an entry: `## [<version>](<link>) - <date>`. */
  function Heading(version: string, link: string, date: string): string {
    "## [" + version + "](" + link + ") - " + date
  }

  /** The new changelog section (gfr/commands/hotfix.py:108). */
  function Entry(version: string, link: string, date: string, items: seq<string>): string {
    Heading(version, link, date) + "\n### Fixed\n" + Join(Bullets(items), "\n") + "\n"
  }

  /** The release body (gfr/commands/hotfix.py:164). */
  function ReleaseNotes(items: seq<string>): string {
    "## Changelog\n- " + Join(items, "\n- ")
  }

  predicate NoNewline(xs: seq<string>) {
    forall k :: 0 <= k < |xs| ==> '\n' !in xs[k]
  }

  lemma {:induction false} JoinFront(x: string, xs: seq<string>, sep: string)
    requires |xs| > 0
    ensures Join([x] + xs, sep) == x + sep + Join(xs, sep)
  {
    assert ([x] + xs)[1..] == xs;
  }

  /** The entry, line by line: heading, `### Fixed`, one bullet per item, and the final newline. */
  lemma EntryAsLines(version: string, link: string, date: string, items: seq<string>)
    requires |items| > 0
    ensures Entry(version, link, date, items)
         == Join([Heading(version, link, date), "### Fixed"] + Bullets(items) + [""], "\n")
  {
    var h, b, f := Heading(version, link, date), Bullets(items), "### Fixed";
    var j := Join(b, "\n");
    JoinSnoc(b, "", "\n");
    assert Join(b + [""], "\n") == j + "\n";
    JoinFront(f, b + [""], "\n");
    assert Join([f] + (b + [""]), "\n") == f + "\n" + (j + "\n");
    assert [h, f] + b + [""] == [h] + ([f] + (b + [""]));
    JoinFront(h, [f] + (b + [""]), "\n");
    assert "\n### Fixed\n" == "\n" + f + "\n";
    assert h + "\n" + (f + "\n" + (j + "\n")) == h + ("\n" + f + "\n") + j + "\n";
  }

  /**
   * Reading the entry back line by line recovers the heading, the
   * `### Fixed` line and exactly the items, in order, each as a bullet.
   */
  lemma EntryLines(version: string, link: string, date: string, items: seq<string>)
    requires |items| > 0 && NoNewline(items)
    requires '\n' !in version && '\n' !in link && '\n' !in date
    ensures Split(Entry(version, link, date, items), '\n')
         == [Heading(version, link, date), "### Fixed"] + Bullets(items) + [""]
  {
    var lines := [Heading(version, link, date), "### Fixed"] + Bullets(items) + [""];
    EntryAsLines(version, link, date, items);
    forall k | 0 <= k < |lines| ensures '\n' !in lines[k] {
      if 2 <= k < |lines| - 1 {
        assert lines[k] == "- " + items[k - 2];
      }
    }
    SplitJoin(lines, '\n');
  }

  lemma {:induction false} JoinBullets(items: seq<string>)
    requires |items| > 0
    ensures "- " + Join(items, "\n- ") == Join(Bullets(items), "\n")
  {
    if |items| > 1 {
      JoinBullets(items[1..]);
      assert Bullets(items)[1..] == Bullets(items[1..]);
    }
  }

  /**
   * The release notes are the line `## Changelog` followed by one bullet
   * per item, and they read back as exactly those lines.
   */
  lemma ReleaseNotesLines(items: seq<string>)
    requires |items| > 0 && NoNewline(items)
    ensures ReleaseNotes(items) == Join(["## Changelog"] + Bullets(items), "\n")
    ensures Split(ReleaseNotes(items), '\n') == ["## Changelog"] + Bullets(items)
  {
    JoinBullets(items);
    JoinFront("## Changelog", Bullets(items), "\n");
    assert ReleaseNotes(items) == "## Changelog" + "\n" + ("- " + Join(items, "\n- "));
    var lines := ["## Changelog"] + Bullets(items);
    forall k | 0 <= k < |lines| ensures '\n' !in lines[k] {
      if k > 0 {
        assert lines[k] == "- " + items[k - 1];
      }
    }
    SplitJoin(lines, '\n');
  }

  lemma {:induction false} JoinLacks(xs: seq<string>, sep: string, ch: char)
    requires ch !in sep && forall k :: 0 <= k < |xs| ==> ch !in xs[k]
    ensures ch !in Join(xs, sep)
    decreases |xs|
  {
    if |xs| > 1 {
      JoinLacks(xs[1..], sep, ch);
    }
  }

  /**
   * An entry built from backslash-free parts has no backslash, so `re.sub`
   * copies it literally into the file.
   */
  lemma EntryHasNoBackslash(version: string, link: string, date: string, items: seq<string>)
    requires '\\' !in version && '\\' !in link && '\\' !in date
    requires forall k :: 0 <= k < |items| ==> '\\' !in items[k]
    ensures '\\' !in Entry(version, link, date, items)
  {
    var b := Bullets(items);
    forall k | 0 <= k < |b| ensures '\\' !in b[k] {
      assert b[k] == "- " + items[k];
    }
    JoinLacks(b, "\n", '\\');
  }

  const Header := "# Changelog\n\n"
  const Blank := "\n\n"

  /** `k` is the first index at or after `from` where `pat` occurs. */
  ghost predicate FirstFrom(s: string, pat: string, from: nat, k: nat) {
    from <= k && OccursAt(s, pat, k) && forall j :: from <= j < k ==> !OccursAt(s, pat, j)
  }

  ghost predicate Absent(s: string, pat: string, from: nat) {
    forall j :: from <= j ==> !OccursAt(s, pat, j)
  }

  /**
   * The span `re.search(r'# Changelog\n\n.*?\n\n', content, re.DOTALL)`
   * matches, as `(start, end)`: the first heading, then the first blank
   * line at or after its end (the lazy `.*?` takes the shortest span).
   */
  function FindMatch(content: string): (r: Option<(nat, nat)>)
    ensures r.Some? ==> FirstFrom(content, Header, 0, r.value.0)
                        && r.value.0 + |Header| + |Blank| <= r.value.1
                        && FirstFrom(content, Blank, r.value.0 + |Header|, r.value.1 - |Blank|)
    ensures r.None? ==> Absent(content, Header, 0)
                        || exists i: nat :: FirstFrom(content, Header, 0, i) && Absent(content, Blank, i + |Header|)
  {
    match FindFrom(content, Header, 0)
    case None => None
    case Some(i) =>
      match FindFrom(content, Blank, i + |Header|)
      case None =>
        assert FirstFrom(content, Header, 0, i);
        None
      case Some(j) => Some((i, j + |Blank|))
  }

  /**
   * `re.sub(r'(# Changelog\n\n.*?\n\n)', r'\1<entry>\n', content, 1, re.DOTALL)`
   * for an entry without backslashes: the first match is kept and followed
   * by the entry and a newline; with no match the content is returned as is.
   */
  function InsertEntry(content: string, entry: string): (r: string)
    requires '\\' !in entry
    ensures |r| >= |content|
  {
    match FindMatch(content)
    case None => content
    case Some((_, e)) => content[..e] + entry + "\n" + content[e..]
  }

  /**
   * With the first heading at `i` and the first blank line after it at
   * `j`, the entry goes right after that blank line and everything before
   * and after the insertion point is kept verbatim.
   */
  lemma InsertAtFirstMatch(content: string, entry: string, i: nat, j: nat)
    requires '\\' !in entry
    requires FirstFrom(content, Header, 0, i) && FirstFrom(content, Blank, i + |Header|, j)
    ensures InsertEntry(content, entry) == content[..j + 2] + entry + "\n" + content[j + 2..]
    ensures var r := InsertEntry(content, entry);
            r[..j + 2] == content[..j + 2] && r[j + 2 + |entry| + 1..] == content[j + 2..]
  {
    assert FindFrom(content, Header, 0) == Some(i);
    assert FindFrom(content, Blank, i + |Header|) == Some(j);
  }

  /**
   * Only the first block is rewritten (`count=1`): a later `# Changelog`
   * heading, past the insertion point, is still there, shifted by the
   * inserted entry and its newline.
   */
  lemma LaterHeadingKept(content: string, entry: string, i: nat, j: nat, k: nat)
    requires '\\' !in entry
    requires FirstFrom(content, Header, 0, i) && FirstFrom(content, Blank, i + |Header|, j)
    requires j + 2 <= k && OccursAt(content, Header, k)
    ensures OccursAt(InsertEntry(content, entry), Header, k + |entry| + 1)
  {
    InsertAtFirstMatch(content, entry, i, j);
    var r := InsertEntry(content, entry);
    var d := j + 2 + |entry| + 1;
    assert r[d..] == content[j + 2..];
    assert r[k + |entry| + 1..k + |entry| + 1 + |Header|] == r[d..][k - (j + 2)..k - (j + 2) + |Header|];
  }

  /** No heading, or no blank line after the first one: the file is left as it is. */
  lemma InsertWithoutMatch(content: string, entry: string)
    requires '\\' !in entry
    requires Absent(content, Header, 0)
             || exists i: nat :: FirstFrom(content, Header, 0, i) && Absent(content, Blank, i + |Header|)
    ensures InsertEntry(content, entry) == content
  {
    if !Absent(content, Header, 0) {
      var i: nat :| FirstFrom(content, Header, 0, i) && Absent(content, Blank, i + |Header|);
      assert FindFrom(content, Header, 0) == Some(i);
    }
  }

  /**
   * The file after `f.seek(0, 0); f.write(data)` on a file opened with
   * `r+` holding `before`: nothing truncates it, so a shorter write would
   * leave the old tail behind.
   */
  function Overwrite(before: string, data: string): (r: string)
    ensures |r| == if |data| < |before| then |before| else |data|
    ensures IsPrefix(data, r)
    ensures |data| < |before| ==> r[|data|..] == before[|data|..]
  {
    if |data| < |before| then data + before[|data|..] else data
  }

  /** A new file: the template without surrounding whitespace, a blank line, the entry. */
  function Seed(template: string, entry: string): (r: string)
    ensures IsPrefix(Strip(template) + "\n\n", r) && IsSuffix(entry, r)
    ensures |r| == |Strip(template)| + 2 + |entry|
  {
    Strip(template) + "\n\n" + entry
  }

  /** Somewhere in `s` a `\r` is followed by a `\n`. */
  predicate HasCrlf(s: string) {
    exists k :: 0 <= k < |s| - 1 && s[k] == '\r' && s[k + 1] == '\n'
  }

  /**
   * Python's text-mode reading with universal newlines: `\r\n` and a lone
   * `\r` both read as `\n`.
   */
  function Translate(raw: string): (r: string)
    ensures '\r' !in r
    ensures |r| <= |raw|
    ensures '\r' !in raw ==> r == raw
    ensures HasCrlf(raw) ==> |r| < |raw|
    decreases |raw|
  {
    if raw == [] then []
    else if raw[0] == '\r' then "\n" + Translate(if |raw| > 1 && raw[1] == '\n' then raw[2..] else raw[1..])
    else [raw[0]] + Translate(raw[1..])
  }

  /**
   * The read character by character: `\r\n` reads as one `\n`, a lone
   * `\r` reads as `\n`, and every other character reads as itself.
   */
  lemma TranslateFront(c: char, rest: string)
    ensures c == '\r' && rest != [] && rest[0] == '\n' ==> Translate([c] + rest) == "\n" + Translate(rest[1..])
    ensures c == '\r' && (rest == [] || rest[0] != '\n') ==> Translate([c] + rest) == "\n" + Translate(rest)
    ensures c != '\r' ==> Translate([c] + rest) == [c] + Translate(rest)
  {
    var raw := [c] + rest;
    assert raw[0] == c && raw[1..] == rest;
    if |rest| > 0 {
      assert raw[2..] == rest[1..];
    }
  }

  /**
   * CHANGELOG.md after the update of gfr/commands/hotfix.py:110-117 as
   * written: the file is opened with `r+`, read in text mode, rewritten
   * from the start and never truncated, so the tail of the raw file stays
   * wherever the translated text came out shorter.
   */
  function WrittenInPlace(raw: string, entry: string): (r: string)
    requires '\\' !in entry
    ensures IsPrefix(InsertEntry(Translate(raw), entry), r)
    ensures '\r' !in raw ==> r == InsertEntry(raw, entry)
  {
    Overwrite(raw, InsertEntry(Translate(raw), entry))
  }

  /**
   * A file with Windows line endings and no `# Changelog` heading: the
   * in-place write leaves a stray newline after the text it wrote back,
   * where a truncating write leaves the text itself.
   */
  lemma CrlfLeavesTail()
    ensures WrittenInPlace("a\r\n", "x") == "a\n\n"
    ensures WrittenChangelog(Some("a\r\n"), "", "x") == "a\n"
  {
    assert Translate("a\r\n") == "a\n" by {
      assert "a\r\n"[1..] == "\r\n";
      assert "\r\n"[2..] == [];
    }
    assert FindFrom("a\n", Header, 0) == None;
  }

  /**
   * CHANGELOG.md after the update of gfr/commands/hotfix.py:110-117, with
   * the rewrite replacing the whole file: the translated text with the
   * entry inserted on an existing file, the seeded template on a new one.
   */
  function WrittenChangelog(existing: Option<string>, template: string, entry: string): (r: string)
    requires '\\' !in entry
    ensures existing.Some? ==> r == InsertEntry(Translate(existing.value), entry)
    ensures existing.None? ==> r == Seed(template, entry)
  {
    match existing
    case Some(raw) => InsertEntry(Translate(raw), entry)
    case None => Seed(template, entry)
  }

  /**
   * On a file without carriage returns the truncating write and the
   * in-place write leave the same file: insertion never shortens the text,
   * so nothing of the old file is left over.
   */
  lemma SameWithoutCarriageReturns(raw: string, template: string, entry: string)
    requires '\\' !in entry && '\r' !in raw
    ensures WrittenChangelog(Some(raw), template, entry) == WrittenInPlace(raw, entry)
    ensures WrittenChangelog(Some(raw), template, entry) == InsertEntry(raw, entry)
  {
  }

  /**
   * Two runs on a fresh repository, when the stripped template opens with
   * the `# Changelog` heading and has no further blank line: the second
   * entry lands between the template and the first entry, newest first.
   */
  lemma NewestFirst(template: string, first: string, second: string)
    requires '\\' !in second
    requires IsPrefix(Header, Strip(template)) && Absent(Strip(template), Blank, |Header|)
    ensures InsertEntry(Seed(template, first), second)
         == Strip(template) + "\n\n" + second + "\n" + first
  {
    var t := Strip(template);
    var s := Seed(template, first);
    assert s[..|t|] == t;
    assert OccursAt(s, Header, 0) by {
      assert s[..|Header|] == t[..|Header|];
    }
    assert |t| > |Header| by {
      assert t[..|Header|] == Header;
      assert !IsSpace(t[|t| - 1]);
    }
    forall k | |Header| <= k < |t| ensures !OccursAt(s, Blank, k) {
      if k + 2 <= |t| {
        assert s[k..k + 2] == t[k..k + 2];
        assert !OccursAt(t, Blank, k);
      } else {
        assert s[k] == t[|t| - 1];
        assert k + 2 <= |s| ==> s[k..k + 2][0] == s[k] && Blank[0] == '\n' && IsSpace('\n');
      }
    }
    assert OccursAt(s, Blank, |t|);
    assert FirstFrom(s, Blank, |Header|, |t|);
    InsertAtFirstMatch(s, second, 0, |t|);
    assert s[..|t| + 2] == t + "\n\n";
    assert s[|t| + 2..] == first;
  }

  /**
   * Two runs on a fresh repository whose stripped template is the bare
   * `# Changelog` heading, with a first entry that holds no blank line: the
   * seeded file has no blank line after its heading, so the second run
   * rewrites nothing and its entry is lost.
   */
  lemma BareHeadingDropsSecond(template: string, first: string, second: string)
    requires '\\' !in second
    requires Strip(template) == "# Changelog" && Absent(first, Blank, 0)
    ensures InsertEntry(Seed(template, first), second) == Seed(template, first)
  {
    var s := Seed(template, first);
    assert s == Header + first;
    assert OccursAt(s, Header, 0) by {
      assert s[..|Header|] == Header;
    }
    forall j | |Header| <= j ensures !OccursAt(s, Blank, j) {
      if OccursAt(s, Blank, j) {
        assert s[j..j + 2] == first[j - |Header|..j - |Header| + 2];
        assert OccursAt(first, Blank, j - |Header|);
      }
    }
    assert FirstFrom(s, Header, 0, 0);
    InsertWithoutMatch(s, second);
  }
}
