/**
 * The class autoloader: a class named `BuddyExtender_<Suffix>` is loaded
 * from `classes/class-<suffix>.php`, where the suffix has every `_` turned
 * into `-` and is lower-cased; any other class name is not this plugin's.
 */
module Autoload {
  import opened Wrappers

  const CLASS_PREFIX := "BuddyExtender_"
  const FILE_PREFIX := "classes/class-"
  const FILE_SUFFIX := ".php"

  /** An ASCII capital letter. */
  predicate IsUpper(ch: char) {
    'A' <= ch <= 'Z'
  }

  /** `strtolower` in the C locale: only the ASCII letters A-Z change. */
  function LowerChar(ch: char): char {
    if IsUpper(ch) then (ch as int + 32) as char else ch
  }

  /** What one class-name character becomes in the file name. */
  function FoldChar(ch: char): char {
    LowerChar(if ch == '_' then '-' else ch)
  }

  /** `str_replace('_', '-', s)`. */
  function Hyphenate(s: string): (r: string)
    ensures |r| == |s|
    ensures forall i :: 0 <= i < |s| ==> r[i] == if s[i] == '_' then '-' else s[i]
  {
    if s == [] then [] else [if s[0] == '_' then '-' else s[0]] + Hyphenate(s[1..])
  }

  /** `strtolower(s)`. */
  function Lower(s: string): (r: string)
    ensures |r| == |s|
    ensures forall i :: 0 <= i < |s| ==> r[i] == LowerChar(s[i])
  {
    if s == [] then [] else [LowerChar(s[0])] + Lower(s[1..])
  }

  /** The file name part the autoloader derives from a class-name suffix. */
  function FileSlug(suffix: string): (slug: string)
    ensures |slug| == |suffix|
    ensures forall i :: 0 <= i < |suffix| ==> slug[i] == FoldChar(suffix[i])
  {
    Lower(Hyphenate(suffix))
  }

  /** The path, relative to the plugin directory, that `include_file` tries. */
  function IncludePath(filename: string): (path: string)
    ensures |path| == |FILE_PREFIX| + |filename| + |FILE_SUFFIX|
    ensures path[..|FILE_PREFIX|] == FILE_PREFIX
    ensures path[|FILE_PREFIX|..|path| - |FILE_SUFFIX|] == filename
    ensures path[|path| - |FILE_SUFFIX|..] == FILE_SUFFIX
  {
    FILE_PREFIX + filename + FILE_SUFFIX
  }

  /**
   * The file the autoloader includes for `className`, or None when the
   * name does not start with the plugin's class prefix.
   */
  function AutoloadPath(className: string): (r: Option<string>)
    ensures r.None? <==> !(CLASS_PREFIX <= className)
  {
    if CLASS_PREFIX <= className then Some(IncludePath(FileSlug(className[|CLASS_PREFIX|..]))) else None
  }

  /**
   * A matching class name maps, character by character, to `classes/class-`,
   * then its suffix with `_` made `-` and A-Z lower-cased, then `.php`.
   */
  lemma AutoloadPathShape(className: string)
    requires CLASS_PREFIX <= className
    ensures var path := AutoloadPath(className).value;
      && |path| == |FILE_PREFIX| + |className| - |CLASS_PREFIX| + |FILE_SUFFIX|
      && path[..|FILE_PREFIX|] == FILE_PREFIX
      && path[|path| - |FILE_SUFFIX|..] == FILE_SUFFIX
      && forall i :: |CLASS_PREFIX| <= i < |className| ==>
           path[|FILE_PREFIX| + i - |CLASS_PREFIX|] == FoldChar(className[i])
  {
    var suffix := className[|CLASS_PREFIX|..];
    var slug := FileSlug(suffix);
    var path := IncludePath(slug);
    forall i | |CLASS_PREFIX| <= i < |className|
      ensures path[|FILE_PREFIX| + i - |CLASS_PREFIX|] == FoldChar(className[i])
    {
      var k := i - |CLASS_PREFIX|;
      assert path[|FILE_PREFIX| + k] == path[|FILE_PREFIX|..|path| - |FILE_SUFFIX|][k];
      assert slug[k] == LowerChar(Hyphenate(suffix)[k]);
      assert suffix[k] == className[i];
    }
  }

  /** A derived file name holds no `_` and no upper-case letter. */
  lemma FileSlugIsClean(suffix: string)
    ensures forall i :: 0 <= i < |FileSlug(suffix)| ==> FileSlug(suffix)[i] != '_' && !IsUpper(FileSlug(suffix)[i])
  {
    var h := Hyphenate(suffix);
    forall i | 0 <= i < |FileSlug(suffix)|
      ensures FileSlug(suffix)[i] != '_' && !IsUpper(FileSlug(suffix)[i])
    {
      assert FileSlug(suffix)[i] == LowerChar(h[i]);
      assert h[i] != '_';
    }
  }

  /** Deriving a file name from an already derived one changes nothing. */
  lemma FileSlugIdempotent(suffix: string)
    ensures FileSlug(FileSlug(suffix)) == FileSlug(suffix)
  {
    var once := FileSlug(suffix);
    var twice := FileSlug(once);
    forall i | 0 <= i < |once|
      ensures twice[i] == once[i]
    {
      assert once[i] == LowerChar(Hyphenate(suffix)[i]);
    }
  }

  /**
   * Two plugin class names load the same file exactly when they have the same
   * length and their suffixes agree once `_` is read as `-` and case is ignored.
   */
  lemma SameFileIff(a: string, b: string)
    requires CLASS_PREFIX <= a && CLASS_PREFIX <= b
    ensures AutoloadPath(a) == AutoloadPath(b) <==>
      |a| == |b| && forall i :: |CLASS_PREFIX| <= i < |a| ==> FoldChar(a[i]) == FoldChar(b[i])
  {
    AutoloadPathShape(a);
    AutoloadPathShape(b);
    var sa := a[|CLASS_PREFIX|..];
    var sb := b[|CLASS_PREFIX|..];
    AutoloadAs(a, sa);
    AutoloadAs(b, sb);
    if |a| == |b| && forall i :: |CLASS_PREFIX| <= i < |a| ==> FoldChar(a[i]) == FoldChar(b[i]) {
      forall k | 0 <= k < |sa|
        ensures FileSlug(sa)[k] == FileSlug(sb)[k]
      {
        assert FileSlug(sa)[k] == LowerChar(Hyphenate(sa)[k]);
        assert FileSlug(sb)[k] == LowerChar(Hyphenate(sb)[k]);
        assert sa[k] == a[|CLASS_PREFIX| + k] && sb[k] == b[|CLASS_PREFIX| + k];
      }
      assert FileSlug(sa) == FileSlug(sb);
    }
    if AutoloadPath(a) == AutoloadPath(b) {
      var path := AutoloadPath(a).value;
      forall i | |CLASS_PREFIX| <= i < |a|
        ensures FoldChar(a[i]) == FoldChar(b[i])
      {
        assert path[|FILE_PREFIX| + i - |CLASS_PREFIX|] == FoldChar(a[i]);
      }
    }
  }

  /** A class name built from the prefix and `suffix` loads the file derived from `suffix`. */
  lemma AutoloadAs(className: string, suffix: string)
    requires className == CLASS_PREFIX + suffix
    ensures AutoloadPath(className) == Some(IncludePath(FileSlug(suffix)))
  {
    assert CLASS_PREFIX <= className;
    assert className[|CLASS_PREFIX|..] == suffix;
  }
}
