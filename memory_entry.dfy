/**
 * The memory-entry generator: it derives a kebab-case slug from a context
 * string, refuses an empty slug (exit code 2) or an existing target file
 * (exit code 3), fills the `{{TOKEN}}`s of a template and writes the entry,
 * optionally preceded by a YAML-style front matter (exit code 0).
 *
 * The file system is a map from path (relative to the repository root) to
 * contents; a path exists when it is a key. The run does not write itself:
 * it returns the file it would write.
 */
module MemoryEntry {
  import opened Wrappers
  import opened Text

  // ---------------------------------------------------------------------
  // Slugs

  predicate IsSlugChar(c: char) { 'a' <= c <= 'z' || IsDigit(c) || c == '-' }

  /**
   * What a slug looks like: lower-case ASCII letters, digits and single
   * hyphens, with no hyphen at either end.
   */
  predicate IsSlug(s: string) {
    AllChars(s, IsSlugChar) && NoRun(s, IsHyphen) && (s != [] ==> s[0] != '-' && s[|s| - 1] != '-')
  }

  /**
   * `kebab_case`: strip white space, lower-case, turn each run of
   * characters outside `[a-zA-Z0-9]` into one hyphen, collapse runs of
   * hyphens and strip hyphens from both ends.
   */
  function KebabCase(text: string): string {
    Strip(Collapsed(text), IsHyphen)
  }

  /** The hyphenated, collapsed string before the final strip. */
  function Collapsed(text: string): string {
    SubRuns(SubRuns(Lower(Strip(text, IsSpace)), NotAlnum, '-'), IsHyphen, '-')
  }

  lemma CollapsedChars(text: string)
    ensures AllChars(Collapsed(text), IsSlugChar) && NoRun(Collapsed(text), IsHyphen)
  {
    var lowered := Lower(Strip(text, IsSpace));
    var hyphenated := SubRuns(lowered, NotAlnum, '-');
    SubRunsChars(lowered, NotAlnum, '-', IsSlugChar);
    SubRunsChars(hyphenated, IsHyphen, '-', IsSlugChar);
    SubRunsNoRun(hyphenated, IsHyphen, '-');
  }

  lemma StripHyphensSlug(collapsed: string)
    requires AllChars(collapsed, IsSlugChar) && NoRun(collapsed, IsHyphen)
    ensures IsSlug(Strip(collapsed, IsHyphen))
  {
    var lo, hi := StripIsSlice(collapsed, IsHyphen);
    var slug := collapsed[lo..hi];
    assert forall i :: 0 <= i < |slug| ==> slug[i] == collapsed[lo + i];
  }

  /** The output alphabet, and no doubled or edge hyphens. */
  lemma KebabCaseIsSlug(text: string)
    ensures IsSlug(KebabCase(text))
  {
    assert KebabCase(text) == Strip(Collapsed(text), IsHyphen);
    CollapsedChars(text);
    StripHyphensSlug(Collapsed(text));
  }

  lemma SlugUnchangedByLower(s: string)
    requires IsSlug(s)
    ensures Lower(Strip(s, IsSpace)) == s
  {
    if s != [] {
      assert IsSlugChar(s[0]) && IsSlugChar(s[|s| - 1]);
      assert !IsSpace(s[0]) && !IsSpace(s[|s| - 1]);
    }
    assert Strip(s, IsSpace) == s;
    forall i | 0 <= i < |s|
      ensures !IsUpper(s[i])
    {
      assert IsSlugChar(s[i]);
    }
    LowerUnchanged(s);
  }

  lemma SlugUnchangedByHyphenate(s: string)
    requires IsSlug(s)
    ensures SubRuns(s, NotAlnum, '-') == s
  {
    forall i | 0 <= i < |s| - 1
      ensures !(NotAlnum(s[i]) && NotAlnum(s[i + 1]))
    {
      assert IsSlugChar(s[i]) && IsSlugChar(s[i + 1]);
    }
    SubRunsSingles(s, NotAlnum, '-');
    assert forall i :: 0 <= i < |s| ==> IsSlugChar(s[i]) && Recolor(s, NotAlnum, '-')[i] == s[i];
  }

  lemma SlugUnchangedByCollapse(s: string)
    requires IsSlug(s)
    ensures SubRuns(s, IsHyphen, '-') == s
    ensures Strip(s, IsHyphen) == s
  {
    SubRunsSingles(s, IsHyphen, '-');
    assert forall i :: 0 <= i < |s| ==> Recolor(s, IsHyphen, '-')[i] == s[i];
  }

  /** A slug is its own kebab case. */
  lemma KebabCaseFixesSlugs(s: string)
    requires IsSlug(s)
    ensures KebabCase(s) == s
  {
    calc {
      Collapsed(s);
      SubRuns(SubRuns(Lower(Strip(s, IsSpace)), NotAlnum, '-'), IsHyphen, '-');
      { SlugUnchangedByLower(s); }
      SubRuns(SubRuns(s, NotAlnum, '-'), IsHyphen, '-');
      { SlugUnchangedByHyphenate(s); }
      SubRuns(s, IsHyphen, '-');
      { SlugUnchangedByCollapse(s); }
      s;
    }
    SlugUnchangedByCollapse(s);
  }

  /** `kebab_case(kebab_case(x)) == kebab_case(x)`. */
  lemma KebabCaseIdempotent(text: string)
    ensures KebabCase(KebabCase(text)) == KebabCase(text)
  {
    KebabCaseIsSlug(text);
    KebabCaseFixesSlugs(KebabCase(text));
  }

  lemma CollapsedKeepsAlnums(text: string)
    ensures Filter(Collapsed(text), IsAlnum) == Lower(Filter(text, IsAlnum))
  {
    var lowered := Lower(Strip(text, IsSpace));
    HyphensKeepAlnums(lowered);
    LoweredKeepsAlnums(text);
  }

  lemma HyphensKeepAlnums(lowered: string)
    ensures Filter(SubRuns(SubRuns(lowered, NotAlnum, '-'), IsHyphen, '-'), IsAlnum) == Filter(lowered, IsAlnum)
  {
    var hyphenated := SubRuns(lowered, NotAlnum, '-');
    FilterSubRuns(hyphenated, IsHyphen, '-', IsAlnum);
    FilterSubRuns(lowered, NotAlnum, '-', IsAlnum);
  }

  lemma LoweredKeepsAlnums(text: string)
    ensures Filter(Lower(Strip(text, IsSpace)), IsAlnum) == Lower(Filter(text, IsAlnum))
  {
    FilterLower(Strip(text, IsSpace));
    FilterStrip(text, IsSpace, IsAlnum);
  }

  /** The letters and digits of the slug are those of the input, lower-cased, in order. */
  lemma KebabCaseKeepsAlnums(text: string)
    ensures Filter(KebabCase(text), IsAlnum) == Lower(Filter(text, IsAlnum))
  {
    assert KebabCase(text) == Strip(Collapsed(text), IsHyphen);
    CollapsedKeepsAlnums(text);
    FilterStrip(Collapsed(text), IsHyphen, IsAlnum);
  }

  /** The slug is empty exactly when the context has no ASCII letter or digit. */
  lemma EmptySlugIff(text: string)
    ensures KebabCase(text) == "" <==> forall i :: 0 <= i < |text| ==> !IsAlnum(text[i])
  {
    var slug := KebabCase(text);
    KebabCaseKeepsAlnums(text);
    KebabCaseIsSlug(text);
    FilterEmpty(text, IsAlnum);
    FilterEmpty(slug, IsAlnum);
    if slug != [] {
      assert IsSlugChar(slug[0]) && IsAlnum(slug[0]);
    }
  }

  // The steps of the usage example are taken on a variable equal to the
  // literal, which keeps the verifier from unfolding the definitions on it.

  lemma ExampleLowered(text: string)
    requires text == "readme scope"
    ensures Lower(Strip(text, IsSpace)) == text
  {
    assert !IsSpace(text[0]) && !IsSpace(text[|text| - 1]);
    assert forall i :: 0 <= i < |text| ==> !IsUpper(text[i]);
    LowerUnchanged(text);
  }

  lemma ExampleHyphenated(text: string, slug: string)
    requires text == "readme scope" && slug == "readme-scope"
    ensures SubRuns(text, NotAlnum, '-') == slug
  {
    assert NoRun(text, NotAlnum);
    SubRunsSingles(text, NotAlnum, '-');
    assert forall i :: 0 <= i < |text| ==> Recolor(text, NotAlnum, '-')[i] == slug[i];
  }

  lemma ExampleSlug(text: string, slug: string)
    requires text == "readme scope" && slug == "readme-scope"
    ensures KebabCase(text) == slug
  {
    ExampleLowered(text);
    ExampleHyphenated(text, slug);
    assert IsSlug(slug);
    SlugUnchangedByCollapse(slug);
  }

  lemma ExamplePath(slug: string)
    requires slug == "readme-scope"
    ensures OutPath(slug) == ".github/agents/memory/readme-scope-agent-memory.md"
  {
  }

  /** The example of the usage text: context "readme scope". */
  lemma ReadmeScopeExample()
    ensures KebabCase("readme scope") == "readme-scope"
    ensures OutPath(KebabCase("readme scope")) == ".github/agents/memory/readme-scope-agent-memory.md"
  {
    ExampleSlug("readme scope", "readme-scope");
    ExamplePath("readme-scope");
  }

  // ---------------------------------------------------------------------
  // Front matter

  function Quoted(tags: seq<string>): (r: seq<string>)
    ensures |r| == |tags|
    ensures forall i :: 0 <= i < |tags| ==> r[i] == "'" + tags[i] + "'"
  {
    if tags == [] then [] else ["'" + tags[0] + "'"] + Quoted(tags[1..])
  }

  /** The `tags:` value: `[]`, or the quoted tags separated by `, ` in brackets. */
  function TagsYaml(tags: seq<string>): string {
    if tags != [] then "[" + Join(", ", Quoted(tags)) + "]" else "[]"
  }

  function FrontmatterLines(agent: string, date: string, topic: string, tags: seq<string>, source: string): seq<string> {
    ["---", "agent: " + agent, "date: " + date, "topic: " + topic, "tags: " + TagsYaml(tags), "source: " + source, "---", ""]
  }

  /** `build_frontmatter`. */
  function BuildFrontmatter(agent: string, date: string, topic: string, tags: seq<string>, source: string): string {
    Join("\n", FrontmatterLines(agent, date, topic, tags, source))
  }

  /** The front matter, written out line by line: `---`, the five fields, `---`, and a final newline. */
  lemma FrontmatterText(agent: string, date: string, topic: string, tags: seq<string>, source: string)
    ensures BuildFrontmatter(agent, date, topic, tags, source)
      == "---\n" + ("agent: " + agent + "\n" + ("date: " + date + "\n" + ("topic: " + topic + "\n"
         + ("tags: " + TagsYaml(tags) + "\n" + ("source: " + source + "\n" + "---\n")))))
  {
    var l := FrontmatterLines(agent, date, topic, tags, source);
    JoinEightLines(l[0], l[1], l[2], l[3], l[4], l[5], l[6], l[7]);
    assert l == [l[0], l[1], l[2], l[3], l[4], l[5], l[6], l[7]];
    assert "---" + "\n" == "---\n";
  }

  /** Joining eight lines, the last one empty, with newlines. */
  lemma JoinEightLines(l0: string, l1: string, l2: string, l3: string, l4: string, l5: string,
                       l6: string, l7: string)
    requires l7 == ""
    ensures Join("\n", [l0, l1, l2, l3, l4, l5, l6, l7])
      == l0 + "\n" + (l1 + "\n" + (l2 + "\n" + (l3 + "\n" + (l4 + "\n" + (l5 + "\n" + (l6 + "\n"))))))
  {
    var nl := "\n";
    JoinCons(nl, l6, [l7]);
    assert [l6, l7] == [l6] + [l7];
    JoinCons(nl, l5, [l6, l7]);
    assert [l5, l6, l7] == [l5] + [l6, l7];
    JoinCons(nl, l4, [l5, l6, l7]);
    assert [l4, l5, l6, l7] == [l4] + [l5, l6, l7];
    JoinCons(nl, l3, [l4, l5, l6, l7]);
    assert [l3, l4, l5, l6, l7] == [l3] + [l4, l5, l6, l7];
    JoinCons(nl, l2, [l3, l4, l5, l6, l7]);
    assert [l2, l3, l4, l5, l6, l7] == [l2] + [l3, l4, l5, l6, l7];
    JoinCons(nl, l1, [l2, l3, l4, l5, l6, l7]);
    assert [l1, l2, l3, l4, l5, l6, l7] == [l1] + [l2, l3, l4, l5, l6, l7];
    JoinCons(nl, l0, [l1, l2, l3, l4, l5, l6, l7]);
    assert [l0, l1, l2, l3, l4, l5, l6, l7] == [l0] + [l1, l2, l3, l4, l5, l6, l7];
  }

  /** The front matter opens and closes with a `---` line. */
  lemma FrontmatterDelimited(agent: string, date: string, topic: string, tags: seq<string>, source: string)
    ensures var fm := BuildFrontmatter(agent, date, topic, tags, source);
      |fm| >= 8 && fm[..4] == "---\n" && fm[|fm| - 4..] == "---\n"
  {
    FrontmatterText(agent, date, topic, tags, source);
    Bracketed("---\n", "agent: " + agent + "\n", "date: " + date + "\n", "topic: " + topic + "\n",
              "tags: " + TagsYaml(tags) + "\n", "source: " + source + "\n");
  }

  /** `d` both opens and closes `d + m1 + ... + m5 + d`. */
  lemma Bracketed(d: string, m1: string, m2: string, m3: string, m4: string, m5: string)
    ensures var x := d + (m1 + (m2 + (m3 + (m4 + (m5 + d)))));
      |x| >= 2 * |d| && x[..|d|] == d && x[|x| - |d|..] == d
  {
    var inner := m1 + (m2 + (m3 + (m4 + (m5 + d))));
    var middle := m1 + m2 + m3 + m4 + m5;
    assert inner == middle + d;
    assert (d + inner)[..|d|] == d;
    assert d + inner == (d + middle) + d;
  }

  lemma QuotedExample()
    ensures Quoted(["memory", "conventions", "bmad"]) == ["'memory'", "'conventions'", "'bmad'"]
  {
    var tags := ["memory", "conventions", "bmad"];
    var q := Quoted(tags);
    assert q[0] == "'" + tags[0] + "'" == "'memory'";
    assert q[1] == "'" + tags[1] + "'" == "'conventions'";
    assert q[2] == "'" + tags[2] + "'" == "'bmad'";
  }

  /** The `tags:` value for no tags, and for the tags of the usage example. */
  lemma TagsYamlExample()
    ensures TagsYaml([]) == "[]"
    ensures TagsYaml(["memory", "conventions", "bmad"]) == "['memory', 'conventions', 'bmad']"
  {
    QuotedExample();
    var a, b, c := "'memory'", "'conventions'", "'bmad'";
    JoinCons(", ", b, [c]);
    assert [b, c] == [b] + [c];
    JoinCons(", ", a, [b, c]);
    assert [a, b, c] == [a] + [b, c];
    assert Join(", ", [a, b, c]) == a + ", " + (b + ", " + c);
    TagsLiteral();
  }

  lemma TagsLiteral()
    ensures "[" + ("'memory'" + ", " + ("'conventions'" + ", " + "'bmad'")) + "]" == "['memory', 'conventions', 'bmad']"
  {
  }

  /** With no newline in any field, the front matter splits back into its eight lines. */
  lemma FrontmatterLinesBack(agent: string, date: string, topic: string, tags: seq<string>, source: string)
    requires '\n' !in agent && '\n' !in date && '\n' !in topic && '\n' !in source
    requires forall k :: 0 <= k < |tags| ==> '\n' !in tags[k]
    ensures Split(BuildFrontmatter(agent, date, topic, tags, source), '\n')
      == FrontmatterLines(agent, date, topic, tags, source)
  {
    TagsYamlOneLine(tags);
    var lines := FrontmatterLines(agent, date, topic, tags, source);
    forall k | 0 <= k < |lines|
      ensures '\n' !in lines[k]
    {
      FieldLine(k, agent, date, topic, TagsYaml(tags), source);
    }
    SplitJoin(lines, '\n');
  }

  lemma TagsYamlOneLine(tags: seq<string>)
    requires forall k :: 0 <= k < |tags| ==> '\n' !in tags[k]
    ensures '\n' !in TagsYaml(tags)
  {
    var q := Quoted(tags);
    forall k | 0 <= k < |q|
      ensures '\n' !in q[k]
    {
      assert q[k] == "'" + tags[k] + "'";
    }
    JoinAvoids(", ", q, '\n');
  }

  /** Line `k` of the front matter holds no newline when the fields hold none. */
  lemma FieldLine(k: nat, agent: string, date: string, topic: string, yaml: string, source: string)
    requires k < 8
    requires '\n' !in agent && '\n' !in date && '\n' !in topic && '\n' !in yaml && '\n' !in source
    ensures var lines := ["---", "agent: " + agent, "date: " + date, "topic: " + topic,
                          "tags: " + yaml, "source: " + source, "---", ""];
      '\n' !in lines[k]
  {
  }

  // ---------------------------------------------------------------------
  // Rendering the template

  const MemoryDir: string := ".github/agents/memory"
  const TemplatePath: string := MemoryDir + "/templates/bmad-template.md"

  function OutPath(slug: string): string {
    MemoryDir + "/" + slug + "-agent-memory.md"
  }

  /** The template used when the template file does not exist. */
  const FallbackTemplate: string :=
    "# Agent Memory Entry\n\n"
    + "- **Date:** {{DATE}}\n"
    + "- **Topic:** {{TOPIC}}\n"
    + "- **Topics/Tags:** {{TAGS}}\n"
    + "- **Source:** {{SOURCE}}\n\n"
    + "## Context\n\n## Key Insights\n\n## Decisions / Rules\n\n## References\n\n## Next Actions\n\n"

  /** The command-line arguments, once parsed. */
  datatype Args = Args(context: string, topic: string, tags: seq<string>, source: string,
                       agent: string, date: string, yaml: bool)

  datatype File = File(path: string, content: string)

  function Template(files: map<string, string>): string {
    if TemplatePath in files then files[TemplatePath] else FallbackTemplate
  }

  function TagsLine(tags: seq<string>): string {
    if tags != [] then Join(", ", tags) else ""
  }

  /** The four token replacements, in the order the script applies them. */
  function Render(template: string, args: Args): string {
    Replace(Replace(Replace(Replace(template, "{{DATE}}", args.date), "{{TOPIC}}", args.topic),
                    "{{TAGS}}", TagsLine(args.tags)), "{{SOURCE}}", args.source)
  }

  /** A template without any of the four tokens is written out unchanged. */
  lemma RenderWithoutTokens(template: string, args: Args)
    requires !Contains(template, "{{DATE}}") && !Contains(template, "{{TOPIC}}")
    requires !Contains(template, "{{TAGS}}") && !Contains(template, "{{SOURCE}}")
    ensures Render(template, args) == template
  {
    ReplaceAbsent(template, "{{DATE}}", args.date);
    ReplaceAbsent(template, "{{TOPIC}}", args.topic);
    ReplaceAbsent(template, "{{TAGS}}", TagsLine(args.tags));
    ReplaceAbsent(template, "{{SOURCE}}", args.source);
  }

  /** Distinct slugs name distinct files, and no slug names the template file. */
  lemma OutPathInjective(a: string, b: string)
    requires IsSlug(a) && IsSlug(b)
    ensures OutPath(a) == OutPath(b) ==> a == b
    ensures OutPath(a) != TemplatePath
  {
    var pre, post := MemoryDir + "/", "-agent-memory.md";
    if OutPath(a) == OutPath(b) {
      assert |a| == |b|;
      forall i | 0 <= i < |a|
        ensures a[i] == b[i]
      {
        assert OutPath(a)[|pre| + i] == a[i];
        assert OutPath(b)[|pre| + i] == b[i];
      }
    }
    assert |TemplatePath| == 48 && TemplatePath[31] == '/';
    assert |OutPath(a)| == 38 + |a|;
    if |a| == 10 {
      assert OutPath(a)[31] == a[9];
      assert IsSlugChar(a[9]);
    }
  }

  // ---------------------------------------------------------------------
  // The run

  /** The tokens replaced, and the front matter put in front when YAML was asked for. */
  method EntryContent(args: Args, template: string) returns (content: string)
    ensures content == (if args.yaml then BuildFrontmatter(args.agent, args.date, args.topic, args.tags, args.source) + "\n" else "")
      + Render(template, args)
  {
    var rendered := Render(template, args);
    var contentParts: seq<string> := [];
    if args.yaml {
      contentParts := contentParts + [BuildFrontmatter(args.agent, args.date, args.topic, args.tags, args.source)];
    }
    contentParts := contentParts + [rendered];
    content := Join("\n", contentParts);
    if args.yaml {
      assert contentParts == [contentParts[0], rendered];
      JoinTwo("\n", contentParts[0], rendered);
    } else {
      assert contentParts == [rendered];
    }
  }

  /**
   * `main` after argument parsing: exit code 2 for an empty slug, 3 when the
   * target exists, otherwise 0 and the file written.
   */
  method NewMemoryEntry(args: Args, files: map<string, string>) returns (code: int, written: Option<File>)
    ensures code == 0 || code == 2 || code == 3
    ensures code == 2 <==> KebabCase(args.context) == ""
    ensures code == 3 <==> KebabCase(args.context) != "" && OutPath(KebabCase(args.context)) in files
    ensures written.Some? <==> code == 0
    ensures written.Some? ==> written.value.path == OutPath(KebabCase(args.context)) && written.value.path !in files
    ensures written.Some? ==>
      written.value.content == (if args.yaml then BuildFrontmatter(args.agent, args.date, args.topic, args.tags, args.source) + "\n" else "")
         + Render(Template(files), args)
  {
    var slug := KebabCase(args.context);
    if slug == "" {
      return 2, None;
    }
    var outPath := OutPath(slug);
    if outPath in files {
      return 3, None;
    }
    var content := EntryContent(args, Template(files));
    return 0, Some(File(outPath, content));
  }

  /** Running the generator a second time with the same context, on the files the first run left. */
  method RunTwice(args: Args, files: map<string, string>) returns (first: int, second: int)
    ensures first == 0 ==> second == 3
    ensures first != 0 ==> second == first
  {
    var written;
    first, written := NewMemoryEntry(args, files);
    var after := if written.Some? then files[written.value.path := written.value.content] else files;
    second, written := NewMemoryEntry(args, after);
  }
}
