/** `getLauncherApps`: the launcher activities a device reports, each with
    its package, a display label and the label's initial, sorted by label.
    The label is the application's non-localised label, else the
    activity's, else one derived from the package name. */
module Launcher {
  import opened Wrappers
  import opened Text
  import AdbService

  datatype App = App(packageName: string, title: string, letter: string)

  const QUERY := "cmd package query-activities -a android.intent.action.MAIN -c android.intent.category.LAUNCHER"
  const BLOCK_MARK := "Activity #"
  const NO_PACKAGE := "N/A"
  const NO_LABEL := "Unknown App"

  /** Last package segments too generic to name an app. */
  const GENERIC_SUFFIXES: seq<string> := ["android", "app", "mobile", "client", "lite", "pro", "free", "plus",
                                          "core", "base", "main", "ui", "launcher", "system", "service"]

  // ---------------------------------------------------------------------
  // Splitting the output into activity blocks

  /** The activity blocks: the pieces after each `Activity #`. */
  function Blocks(output: string): seq<string>
  {
    SplitOn(output, BLOCK_MARK)[1..]
  }

  // ---------------------------------------------------------------------
  // The three patterns

  /** `[^\s]+` taken greedily: the longest prefix of `t` without white
      space. */
  function WordPrefix(t: string): (w: string)
    ensures |w| <= |t|
  {
    if t == [] || IsSpace(t[0]) then [] else [t[0]] + WordPrefix(t[1..])
  }

  /** The word is a prefix of the text, holds no white space, and stops
      only at white space or the end; it is empty just when the text starts
      with white space or is empty. */
  lemma {:induction false} WordPrefixMeaning(t: string)
    ensures StartsWith(t, WordPrefix(t))
    ensures forall k :: 0 <= k < |WordPrefix(t)| ==> !IsSpace(WordPrefix(t)[k])
    ensures |WordPrefix(t)| < |t| ==> IsSpace(t[|WordPrefix(t)|])
    ensures WordPrefix(t) == [] <==> t == [] || IsSpace(t[0])
  {
    if t != [] && !IsSpace(t[0]) {
      WordPrefixMeaning(t[1..]);
      var w := WordPrefix(t[1..]);
      assert WordPrefix(t) == [t[0]] + w;
      assert t == [t[0]] + t[1..];
      assert t[..|w| + 1] == [t[0]] + t[1..][..|w|];
    }
  }

  /** Position `j` starts `<tag>` (looked for in `key`) followed by a
      character of `text` that is not white space: where `<tag>([^\s]+)`
      matches. */
  predicate TagBefore(key: string, text: string, tag: string, j: nat)
  {
    j + |tag| < |text| && OccursAt(key, tag, j) && !IsSpace(text[j + |tag|])
  }

  /** The leftmost such position at or after `from`. */
  function TagAt(key: string, text: string, tag: string, from: nat): (r: Option<nat>)
    ensures r.Some? ==> from <= r.value && TagBefore(key, text, tag, r.value)
    ensures r.Some? ==> forall j :: from <= j < r.value ==> !TagBefore(key, text, tag, j)
    ensures r.None? ==> forall j :: from <= j ==> !TagBefore(key, text, tag, j)
    decreases |text| - from
  {
    if from + |tag| >= |text| then None
    else if OccursAt(key, tag, from) && !IsSpace(text[from + |tag|]) then Some(from)
    else TagAt(key, text, tag, from + 1)
  }

  /** `<tag>([^\s]+)` searched from `from`: the word after the leftmost
      match. The tag is looked for in `key`, which is `text` itself or its
      lower-case form, and the word is taken from `text`. */
  function WordAfter(key: string, text: string, tag: string, from: nat): Option<string>
  {
    match TagAt(key, text, tag, from)
    case None => None
    case Some(j) => Some(WordPrefix(text[j + |tag|..]))
  }

  const LABEL_TAG := "nonlocalizedlabel="

  /** How a regular-expression engine runs
      `<header>\s*[^]*?nonLocalizedLabel=([^\s]+)` with the `i` and `s`
      flags (`header` in lower case, `low` the lower-case block): it tries
      every start position in turn and stops at the first one from which
      the pattern matches, where the lazy gap takes the nearest label. */
  function RegexLabelFrom(low: string, block: string, header: string, i: nat): Option<string>
    decreases |low| - i
  {
    if i + |header| > |low| then None
    else if OccursAt(low, header, i) && TagAt(low, block, LABEL_TAG, i + |header|).Some? then
      WordAfter(low, block, LABEL_TAG, i + |header|)
    else RegexLabelFrom(low, block, header, i + 1)
  }

  /** The label after the first occurrence of `header` in `low`. */
  function FirstHeaderLabel(low: string, block: string, header: string): Option<string>
  {
    match IndexOfFrom(low, header, 0)
    case None => None
    case Some(i) => WordAfter(low, block, LABEL_TAG, i + |header|)
  }

  /** The label the pattern captures in a block. */
  function LabelAfter(block: string, header: string): Option<string>
  {
    FirstHeaderLabel(ToLower(block), block, header)
  }

  /** Trying only the first occurrence of the header gives what the engine
      finds: a label after a later occurrence also follows the first one. */
  lemma LabelAfterIsRegex(block: string, header: string)
    ensures LabelAfter(block, header) == RegexLabelFrom(ToLower(block), block, header, 0)
  {
    FirstHeaderIsRegex(ToLower(block), block, header);
  }

  lemma FirstHeaderIsRegex(low: string, block: string, header: string)
    ensures FirstHeaderLabel(low, block, header) == RegexLabelFrom(low, block, header, 0)
  {
    match IndexOfFrom(low, header, 0)
    case None =>
      NoStartFrom(low, block, header, 0, 0);
    case Some(i) =>
      SkipToHeader(low, block, header, 0, i);
      var from := i + |header|;
      if TagAt(low, block, LABEL_TAG, from).None? {
        NoStartFrom(low, block, header, i, from);
      }
  }

  /** Before the first header there is nothing to try. */
  lemma {:induction false} SkipToHeader(low: string, block: string, header: string, i: nat, first: nat)
    requires i <= first && forall j :: i <= j < first ==> !OccursAt(low, header, j)
    requires OccursAt(low, header, first)
    ensures RegexLabelFrom(low, block, header, i) == RegexLabelFrom(low, block, header, first)
    decreases first - i
  {
    if i < first {
      assert !OccursAt(low, header, i);
      SkipToHeader(low, block, header, i + 1, first);
    }
  }

  /** With no header left, or no label after `bound`, nothing matches from
      `i` on. */
  lemma {:induction false} NoStartFrom(low: string, block: string, header: string, i: nat, bound: nat)
    requires (forall j :: i <= j ==> !OccursAt(low, header, j)) ||
             (bound <= i + |header| && forall j :: bound <= j ==> !TagBefore(low, block, LABEL_TAG, j))
    ensures RegexLabelFrom(low, block, header, i) == None
    decreases |low| - i
  {
    if i + |header| <= |low| {
      var t := TagAt(low, block, LABEL_TAG, i + |header|);
      assert !(OccursAt(low, header, i) && t.Some?) by {
        if t.Some? {
          assert TagBefore(low, block, LABEL_TAG, t.value);
        }
      }
      NoStartFrom(low, block, header, i + 1, bound);
    }
  }

  const PACKAGE_TAG := "packageName="

  /** `packageName=([^\s]+)`, or `N/A`. */
  function BlockPackage(block: string): string
  {
    match WordAfter(block, block, PACKAGE_TAG, 0)
    case Some(p) => p
    case None => NO_PACKAGE
  }

  /** The label of a block: the application label unless missing or `null`,
      else the activity label on the same terms, else the label derived
      from the package, else `Unknown App`. */
  function BlockLabel(block: string, packageName: string): string
  {
    var appLabel := LabelAfter(block, "applicationinfo:");
    if appLabel.Some? && appLabel.value != "null" then appLabel.value
    else
      var activityLabel := LabelAfter(block, "activityinfo:");
      if activityLabel.Some? && activityLabel.value != "null" then activityLabel.value
      else if packageName != NO_PACKAGE then DeriveLabel(packageName)
      else NO_LABEL
  }

  // ---------------------------------------------------------------------
  // Labels derived from package names

  /** The segment that names the app: the last one, or the one before it
      when the last is generic and there is one before it. */
  function LabelSegment(parts: seq<string>): (seg: string)
    requires |parts| >= 1
    ensures seg in parts
    ensures seg != parts[|parts| - 1] ==> |parts| > 1 && ToLower(parts[|parts| - 1]) in GENERIC_SUFFIXES
  {
    var last := parts[|parts| - 1];
    if ToLower(last) in GENERIC_SUFFIXES && |parts| > 1 then parts[|parts| - 2] else last
  }

  predicate IsUpper(c: char) { 'A' <= c <= 'Z' }

  predicate IsLowerLetter(c: char) { 'a' <= c <= 'z' }

  /** `\w`: an ASCII letter, digit or underscore. */
  predicate IsWordChar(c: char) { IsUpper(c) || IsLowerLetter(c) || IsDigit(c) || c == '_' }

  /** `replace(/([A-Z])/g, ' $1')`: a space before every capital. */
  function SpaceCaps(s: string): (r: string)
    ensures forall k :: 0 <= k < |r| && IsUpper(r[k]) ==> k > 0 && r[k - 1] == ' '
  {
    if s == [] then []
    else if IsUpper(s[0]) then [' ', s[0]] + SpaceCaps(s[1..])
    else [s[0]] + SpaceCaps(s[1..])
  }

  /** The characters of `s` other than spaces. */
  function Unspaced(s: string): string
  {
    if s == [] then [] else (if s[0] == ' ' then [] else [s[0]]) + Unspaced(s[1..])
  }

  /** Spacing the capitals only adds spaces. */
  lemma {:induction false} SpaceCapsOnlySpaces(s: string)
    ensures Unspaced(SpaceCaps(s)) == Unspaced(s)
  {
    if s != [] {
      SpaceCapsOnlySpaces(s[1..]);
      var r := SpaceCaps(s[1..]);
      if IsUpper(s[0]) {
        assert SpaceCaps(s) == [' '] + ([s[0]] + r);
        UnspacedCons(' ', [s[0]] + r);
        UnspacedCons(s[0], r);
      } else {
        UnspacedCons(s[0], r);
      }
    }
  }

  lemma UnspacedCons(c: char, s: string)
    ensures Unspaced([c] + s) == (if c == ' ' then [] else [c]) + Unspaced(s)
  {
    assert ([c] + s)[1..] == s;
  }

  predicate IsSeparator(c: char) { c == '-' || c == '_' || c == '.' }

  /** `replace(/[-_.]/g, ' ')`. */
  function Separate(s: string): (r: string)
    ensures |r| == |s|
    ensures forall k :: 0 <= k < |s| ==> r[k] == (if IsSeparator(s[k]) then ' ' else s[k])
  {
    seq(|s|, k requires 0 <= k < |s| => if IsSeparator(s[k]) then ' ' else s[k])
  }

  /** `\b\w` at position `k`: a word character not preceded by one. */
  predicate WordStart(s: string, k: nat)
    requires k < |s|
  {
    IsWordChar(s[k]) && (k == 0 || !IsWordChar(s[k - 1]))
  }

  /** `replace(/\b\w/g, c => c.toUpperCase())`. */
  function TitleCase(s: string): (r: string)
    ensures |r| == |s|
  {
    seq(|s|, k requires 0 <= k < |s| => if WordStart(s, k) then UpperChar(s[k]) else s[k])
  }

  /** Upper-casing a character keeps its lower-case form, its class and
      its spacing, and leaves no lower-case letter. */
  lemma UpperCharKeeps(c: char)
    ensures LowerChar(UpperChar(c)) == LowerChar(c)
    ensures IsWordChar(UpperChar(c)) == IsWordChar(c)
    ensures IsSpace(UpperChar(c)) == IsSpace(c)
    ensures IsSeparator(UpperChar(c)) == IsSeparator(c)
    ensures !IsLowerLetter(UpperChar(c))
  {
  }

  /** Title-casing does not move word starts. */
  lemma TitleCaseStarts(s: string, k: nat)
    requires k < |s|
    ensures WordStart(TitleCase(s), k) == WordStart(s, k)
    ensures TitleCase(s)[k] == if WordStart(s, k) then UpperChar(s[k]) else s[k]
  {
    UpperCharKeeps(s[k]);
    if k > 0 {
      UpperCharKeeps(s[k - 1]);
    }
  }

  /** Title-casing changes only the case of word starts, each of which ends
      up without a lower-case letter. */
  lemma TitleCaseMeaning(s: string)
    ensures ToLower(TitleCase(s)) == ToLower(s)
    ensures forall k :: 0 <= k < |s| && WordStart(TitleCase(s), k) ==> !IsLowerLetter(TitleCase(s)[k])
  {
    var r := TitleCase(s);
    forall k | 0 <= k < |s|
      ensures LowerChar(r[k]) == LowerChar(s[k])
      ensures WordStart(r, k) ==> !IsLowerLetter(r[k])
    {
      TitleCaseStarts(s, k);
      UpperCharKeeps(s[k]);
    }
    assert ToLower(r) == ToLower(s);
  }

  /** Title-casing twice is title-casing once. */
  lemma TitleCaseIdempotent(s: string)
    ensures TitleCase(TitleCase(s)) == TitleCase(s)
  {
    var r := TitleCase(s);
    forall k | 0 <= k < |s| ensures TitleCase(r)[k] == r[k] {
      TitleCaseStarts(s, k);
      TitleCaseStarts(r, k);
      UpperCharKeeps(s[k]);
    }
  }

  /** The label derived from a package name: the naming segment with its
      capitals split off, separators turned into spaces, trimmed, and each
      word capitalised. */
  function DeriveLabel(packageName: string): string
  {
    TitleCase(Trim(Separate(SpaceCaps(LabelSegment(Split(packageName, '.'))))))
  }

  /** A derived label holds no separator and no edge white space. */
  lemma DeriveLabelClean(packageName: string)
    ensures forall k :: 0 <= k < |DeriveLabel(packageName)| ==> !IsSeparator(DeriveLabel(packageName)[k])
    ensures DeriveLabel(packageName) != [] ==> !IsSpace(DeriveLabel(packageName)[0])
    ensures DeriveLabel(packageName) != [] ==> !IsSpace(DeriveLabel(packageName)[|DeriveLabel(packageName)| - 1])
  {
    CleanOf(SpaceCaps(LabelSegment(Split(packageName, '.'))));
  }

  lemma CleanOf(x: string)
    ensures var r := TitleCase(Trim(Separate(x)));
      (forall k :: 0 <= k < |r| ==> !IsSeparator(r[k])) &&
      (r != [] ==> !IsSpace(r[0]) && !IsSpace(r[|r| - 1]))
  {
    var sep := Separate(x);
    var t := Trim(sep);
    TrimInside(sep);
    assert t == TrimEnd(TrimStart(sep));
    assert t != [] ==> !IsSpace(t[0]) && !IsSpace(t[|t| - 1]);
    var r := TitleCase(t);
    forall k | 0 <= k < |t| ensures !IsSeparator(r[k]) && IsSpace(r[k]) == IsSpace(t[k]) {
      var j := |sep| - |TrimStart(sep)| + k;
      assert t[k] == sep[j];
      TitleCaseStarts(t, k);
      UpperCharKeeps(t[k]);
    }
  }

  /** Trimming keeps a contiguous part of the text. */
  lemma TrimInside(s: string)
    ensures forall k :: 0 <= k < |Trim(s)| ==> Trim(s)[k] == s[|s| - |TrimStart(s)| + k]
  {
    var a := TrimStart(s);
    assert Trim(s) == TrimEnd(a);
    SliceInside(s, a, TrimEnd(a));
  }

  /** A prefix `b` of a suffix `a` of `s` is a contiguous part of `s`. */
  lemma SliceInside(s: string, a: string, b: string)
    requires |a| <= |s| && s[|s| - |a|..] == a && |b| <= |a| && a[..|b|] == b
    ensures forall k :: 0 <= k < |b| ==> b[k] == s[|s| - |a| + k]
  {
    forall k | 0 <= k < |b| ensures b[k] == s[|s| - |a| + k] {
      assert b[k] == a[..|b|][k];
      assert a[k] == s[|s| - |a|..][k];
    }
  }

  /** The initial shown for a label: its first character in upper case. */
  function Letter(title: string): (r: string)
    ensures |r| <= 1 && (r == [] <==> title == [])
  {
    if title == [] then [] else [UpperChar(title[0])]
  }

  // ---------------------------------------------------------------------
  // The list

  /** The app one activity block contributes: one with both a package and a
      label, or none. */
  function BlockApps(block: string): (r: seq<App>)
    ensures forall a :: a in r ==> a.packageName != NO_PACKAGE && a.title != NO_LABEL && a.letter == Letter(a.title)
    ensures |r| <= 1
  {
    var packageName := BlockPackage(block);
    var title := BlockLabel(block, packageName);
    if packageName != NO_PACKAGE && title != NO_LABEL then [App(packageName, title, Letter(title))] else []
  }

  /** A listed app always has both a package and a label, its letter comes
      from its label, and there is at most one per block. */
  lemma {:induction false} AppsWellFormed(blocks: seq<string>)
    ensures |AdbService.Gather(BlockApps, blocks)| <= |blocks|
    ensures forall a :: a in AdbService.Gather(BlockApps, blocks) ==>
              a.packageName != NO_PACKAGE && a.title != NO_LABEL && a.letter == Letter(a.title)
    decreases |blocks|
  {
    if blocks != [] {
      AppsWellFormed(blocks[..|blocks| - 1]);
    }
  }

  /** The apps of the blocks in block order, gathered as the loop pushes
      them. */
  method CollectApps(blocks: seq<string>) returns (apps: seq<App>)
    ensures apps == AdbService.Gather(BlockApps, blocks)
  {
    apps := [];
    for i := 0 to |blocks|
      invariant apps == AdbService.Gather(BlockApps, blocks[..i])
    {
      var packageName := BlockPackage(blocks[i]);
      var title := BlockLabel(blocks[i], packageName);
      if packageName != NO_PACKAGE && title != NO_LABEL {
        apps := apps + [App(packageName, title, Letter(title))];
      }
      AppsStep(blocks, i);
    }
    assert blocks[..|blocks|] == blocks;
  }

  lemma AppsStep(blocks: seq<string>, i: nat)
    requires i < |blocks|
    ensures AdbService.Gather(BlockApps, blocks[..i + 1]) == AdbService.Gather(BlockApps, blocks[..i]) + BlockApps(blocks[i])
  {
    assert blocks[..i + 1][..i] == blocks[..i];
    assert blocks[..i + 1][i] == blocks[i];
  }

  // ---------------------------------------------------------------------
  // Sorting by label

  /** A comparator of JavaScript's kind (`localeCompare`): a positive answer
      one way is a negative one the other way. */
  ghost predicate Antisymmetric(cmp: (string, string) -> int)
  {
    forall a, b :: cmp(a, b) > 0 ==> cmp(b, a) < 0
  }

  predicate SortedBy(apps: seq<App>, cmp: (string, string) -> int)
  {
    forall k :: 0 <= k < |apps| - 1 ==> cmp(apps[k].title, apps[k + 1].title) <= 0
  }

  /** `x` placed after every app of `s`, from the back, that does not
      compare above it: a stable insertion. */
  function Insert(s: seq<App>, x: App, cmp: (string, string) -> int): seq<App>
  {
    if s == [] then [x]
    else if cmp(s[|s| - 1].title, x.title) <= 0 then s + [x]
    else Insert(s[..|s| - 1], x, cmp) + [s[|s| - 1]]
  }

  /** `apps.sort((a, b) => a.title.localeCompare(b.title))`: a stable sort,
      here insertion sort, with the comparator taken as a parameter. */
  function SortApps(apps: seq<App>, cmp: (string, string) -> int): seq<App>
  {
    if apps == [] then [] else Insert(SortApps(apps[..|apps| - 1], cmp), apps[|apps| - 1], cmp)
  }

  lemma {:induction false} InsertPermutes(s: seq<App>, x: App, cmp: (string, string) -> int)
    ensures multiset(Insert(s, x, cmp)) == multiset(s) + multiset{x}
    decreases |s|
  {
    if s != [] && cmp(s[|s| - 1].title, x.title) > 0 {
      InsertPermutes(s[..|s| - 1], x, cmp);
      assert s == s[..|s| - 1] + [s[|s| - 1]];
    }
  }

  /** An insertion adds one element. */
  lemma {:induction false} InsertLength(s: seq<App>, x: App, cmp: (string, string) -> int)
    ensures |Insert(s, x, cmp)| == |s| + 1
    decreases |s|
  {
    if s != [] && cmp(s[|s| - 1].title, x.title) > 0 {
      InsertLength(s[..|s| - 1], x, cmp);
    }
  }

  /** The last element after an insertion: the old last one, or `x`. */
  lemma InsertLast(s: seq<App>, x: App, cmp: (string, string) -> int)
    ensures Insert(s, x, cmp)[|Insert(s, x, cmp)| - 1] == (if s == [] || cmp(s[|s| - 1].title, x.title) <= 0 then x else s[|s| - 1])
  {
  }

  lemma {:induction false} InsertSorted(s: seq<App>, x: App, cmp: (string, string) -> int)
    requires Antisymmetric(cmp) && SortedBy(s, cmp)
    ensures SortedBy(Insert(s, x, cmp), cmp)
    decreases |s|
  {
    if s != [] && cmp(s[|s| - 1].title, x.title) > 0 {
      var init := s[..|s| - 1];
      var last := s[|s| - 1];
      assert SortedBy(init, cmp);
      InsertSorted(init, x, cmp);
      var t := Insert(init, x, cmp);
      InsertLength(init, x, cmp);
      InsertLast(init, x, cmp);
      assert cmp(x.title, last.title) < 0;
      assert cmp(t[|t| - 1].title, last.title) <= 0 by {
        if init != [] && cmp(init[|init| - 1].title, x.title) > 0 {
          assert t[|t| - 1] == init[|init| - 1];
          assert init[|init| - 1] == s[|s| - 2];
        }
      }
      assert Insert(s, x, cmp) == t + [last];
    }
  }

  /** The sort is a permutation whose adjacent labels are in order. */
  lemma {:induction false} SortAppsCorrect(apps: seq<App>, cmp: (string, string) -> int)
    requires Antisymmetric(cmp)
    ensures multiset(SortApps(apps, cmp)) == multiset(apps)
    ensures SortedBy(SortApps(apps, cmp), cmp)
    decreases |apps|
  {
    if apps != [] {
      var init := apps[..|apps| - 1];
      SortAppsCorrect(init, cmp);
      InsertPermutes(SortApps(init, cmp), apps[|apps| - 1], cmp);
      InsertSorted(SortApps(init, cmp), apps[|apps| - 1], cmp);
      assert apps == init + [apps[|apps| - 1]];
    }
  }

  // ---------------------------------------------------------------------
  // getLauncherApps

  /** `getLauncherApps` once the query has run (its output trimmed): the
      apps of the activity blocks, sorted by label; a failed query is
      reported with its message. */
  method LauncherApps(outcome: Result<string>, cmp: (string, string) -> int) returns (r: Result<seq<App>>)
    ensures outcome.Err? ==> r == Err("Failed to get launcher apps: " + outcome.msg)
    ensures outcome.Ok? ==> r == Ok(SortApps(AdbService.Gather(BlockApps, Blocks(Trim(outcome.value))), cmp))
  {
    if outcome.Err? {
      return Err("Failed to get launcher apps: " + outcome.msg);
    }
    var apps := CollectApps(Blocks(Trim(outcome.value)));
    return Ok(SortApps(apps, cmp));
  }
}
