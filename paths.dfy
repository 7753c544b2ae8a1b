/**
 * The string rules main.py applies to file names: POSIX path joining,
 * the `_parsed` output name and the `.html` suffix rule of the writer.
 */
module Paths {
  const InputFolder := "input_data"
  const OutputFolder := "output_data"
  const ParsedSuffix := "_parsed"
  const HtmlExt := ".html"

  /** Python's `str.endswith`. */
  predicate EndsWith(s: string, suffix: string) {
    |suffix| <= |s| && s[|s| - |suffix|..] == suffix
  }

  /** Python's `os.path.join` on POSIX with two components: an absolute
      second component replaces the first; a separator is inserted unless
      the first is empty or already ends with one. */
  function Join(dir: string, part: string): string {
    if |part| > 0 && part[0] == '/' then part
    else if dir == [] || dir[|dir| - 1] == '/' then dir + part
    else dir + "/" + part
  }

  /** A name as a directory listing returns it: non-empty, no separator. */
  predicate IsEntryName(name: string) {
    |name| > 0 && '/' !in name
  }

  /** Where the pipeline for input `name` is asked to write. */
  function OutputPath(name: string): string {
    Join(OutputFolder, name + ParsedSuffix)
  }

  /** The input path the pipeline for `name` uploads. */
  function InputPath(name: string): string {
    Join(InputFolder, name)
  }

  /** The writer's target rule: `.html` is appended unless already there. */
  function WithHtmlSuffix(target: string): (r: string)
    ensures EndsWith(r, HtmlExt)
    ensures |target| <= |r| && r[..|target|] == target
    ensures |r| == |target| <==> EndsWith(target, HtmlExt)
    ensures |r| <= |target| + |HtmlExt|
  {
    if EndsWith(target, HtmlExt) then target else target + HtmlExt
  }

  /** A target lacking the suffix gains exactly one `.html`. */
  lemma AppendsHtmlOnce(target: string)
    requires !EndsWith(target, HtmlExt)
    ensures WithHtmlSuffix(target) == target + HtmlExt
  {
  }

  /** Applying the suffix rule twice is the same as applying it once. */
  lemma HtmlSuffixIdempotent(target: string)
    ensures WithHtmlSuffix(WithHtmlSuffix(target)) == WithHtmlSuffix(target)
  {
  }

  /** For an entry name, the output path is `output_data/<name>_parsed`. */
  lemma OutputPathSpelled(name: string)
    requires IsEntryName(name)
    ensures OutputPath(name) == OutputFolder + "/" + name + ParsedSuffix
    ensures InputPath(name) == InputFolder + "/" + name
  {
  }

  /** Combined naming: `_parsed` never ends in `.html`, so the file written
      for entry `name` is `output_data/<name>_parsed.html`. */
  lemma FinalTargetSpelled(name: string)
    requires IsEntryName(name)
    ensures WithHtmlSuffix(OutputPath(name)) == OutputFolder + "/" + name + ParsedSuffix + HtmlExt
  {
    OutputPathSpelled(name);
    var p := OutputPath(name);
    assert p[|p| - 1] == 'd';
    assert p[|p| - |HtmlExt|..][|HtmlExt| - 1] == p[|p| - 1];
    assert !EndsWith(p, HtmlExt);
    AppendsHtmlOnce(p);
  }

  /** Concatenations that agree outside one part agree on that part. */
  lemma MiddleInjective(pre: string, a: string, b: string, s1: string, s2: string)
    requires pre + a + s1 + s2 == pre + b + s1 + s2
    ensures a == b
  {
    var t := pre + a + s1 + s2;
    assert |a| == |b|;
    assert t == pre + (a + (s1 + s2)) == pre + (b + (s1 + s2));
    assert t[|pre|..] == a + (s1 + s2) == b + (s1 + s2);
    assert a == (a + (s1 + s2))[..|a|] == (b + (s1 + s2))[..|b|] == b;
  }

  /** Distinct entry names are written to distinct files. */
  lemma FinalTargetInjective(a: string, b: string)
    requires IsEntryName(a) && IsEntryName(b)
    requires WithHtmlSuffix(OutputPath(a)) == WithHtmlSuffix(OutputPath(b))
    ensures a == b
  {
    FinalTargetSpelled(a);
    FinalTargetSpelled(b);
    MiddleInjective(OutputFolder + "/", a, b, ParsedSuffix, HtmlExt);
  }
}
