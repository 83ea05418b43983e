/**
 * The bounded metadata reports of MetaDataPrinter. Each report is specified by the sequence of
 * its lines (a function of the metadata and the display options); the methods build the text
 * the way the tool does, one append at a time, and are proved to produce Join of those lines.
 * The lemmas state what the lines are: the cap with its ellipsis, the name filter that
 * overrides the cap, truncation, failure isolation and the sizes in the section headers.
 */
module MetaDataPrinter {
  import opened Wrappers
  import opened JavaText
  import opened Lines
  import opened ClusterMetaData

  const TAB2 := "  "
  const TAB3 := "   "

  /** The line that ends a capped manifest walk. */
  const MANIFEST_MORE := TAB2 + TAB2 + "..."

  /** The line that ends a capped template or index walk. */
  const ENTRY_MORE := TAB2 + TAB3 + "..."

  /** limitStr: the first `limit` characters of str; a negative limit keeps it whole. */
  function LimitStr(str: string, limit: int): (r: string)
    ensures r <= str
    ensures limit < 0 ==> r == str
    ensures limit >= 0 ==> |r| == Min(|str|, limit)
  {
    if limit >= 0 && |str| > limit then str[..limit] else str
  }

  function BoolText(b: bool): string {
    if b then "true" else "false"
  }

  /** A section header: the label and the size of the whole collection. */
  function SizeLine(title: string, n: nat): string {
    TAB2 + title + ": (" + IntToString(n) + ")"
  }

  /** An index is selected by a name when its name or its UUID equals it, ignoring case. */
  predicate Named(index: IndexRef, name: string) {
    EqualsIgnoreCase(index.name, name) || EqualsIgnoreCase(index.uuid, name)
  }

  /** sb.append(line).append("\n"): one more line of the report being built. */
  method AppendLine(sb0: string, ghost out: seq<string>, line: string) returns (sb: string)
    requires sb0 == Join(out)
    ensures sb == Join(out + [line])
  {
    JoinSnoc(out, line);
    sb := sb0 + line + "\n";
  }

  // ---------------------------------------------------------------- node

  function NodeLines(c: Codec, node: NodeMetaData): seq<string> {
    ["NodeMetaData:",
     TAB2 + "nodeId: " + node.nodeId,
     TAB2 + "nodeVersion: " + c.versionText(node.nodeVersion)]
  }

  /** metaDataString(NodeMetaData): the fixed report of the node identity. */
  function NodeString(c: Codec, node: NodeMetaData): (s: string)
    ensures s == Join(NodeLines(c, node))
  {
    var s := "NodeMetaData:\n"
      + TAB2 + "nodeId: " + node.nodeId + "\n"
      + TAB2 + "nodeVersion: " + c.versionText(node.nodeVersion) + "\n";
    JoinSnoc([], "NodeMetaData:");
    JoinSnoc(["NodeMetaData:"], TAB2 + "nodeId: " + node.nodeId);
    JoinSnoc(NodeLines(c, node)[..2], TAB2 + "nodeVersion: " + c.versionText(node.nodeVersion));
    assert NodeLines(c, node) == NodeLines(c, node)[..2] + [NodeLines(c, node)[2]];
    s
  }

  /** The node report reads back as exactly three lines: the title, the node id, the version. */
  lemma NodeReportLines(c: Codec, node: NodeMetaData)
    requires '\n' !in node.nodeId && '\n' !in c.versionText(node.nodeVersion)
    ensures SplitLines(NodeString(c, node)) == NodeLines(c, node)
  {
    var lines := NodeLines(c, node);
    assert '\n' !in lines[0];
    assert '\n' !in lines[1] by { assert lines[1] == TAB2 + "nodeId: " + node.nodeId; }
    assert '\n' !in lines[2] by { assert lines[2] == TAB2 + "nodeVersion: " + c.versionText(node.nodeVersion); }
    assert SingleLines(lines);
    SplitJoin(lines, "");
    assert NodeString(c, node) + "" == NodeString(c, node);
    assert lines + [] == lines;
  }

  // ---------------------------------------------------------------- manifest

  function ManifestHeader(m: Manifest): seq<string> {
    ["Manifest:",
     TAB2 + "currentTerm: " + IntToString(m.currentTerm),
     TAB2 + "clusterStateVersion: " + IntToString(m.clusterStateVersion),
     TAB2 + "globalGeneration: " + IntToString(m.globalGeneration),
     SizeLine("indexGenerations", |m.indexGenerations|)]
  }

  function GenerationLine(c: Codec, g: IndexGeneration): string {
    TAB2 + TAB2 + c.indexText(g.index) + ", " + "generation: " + IntToString(g.generation)
  }

  function GenerationLines(c: Codec, gs: seq<IndexGeneration>): (r: seq<string>)
    ensures |r| == |gs|
  {
    seq(|gs|, i requires 0 <= i < |gs| => GenerationLine(c, gs[i]))
  }

  /** The manifest walk by name: every entry is looked at, only the named ones print. */
  function GenerationsNamed(c: Codec, gs: seq<IndexGeneration>, name: string): seq<Option<string>> {
    Selected(gs, (g: IndexGeneration) => Named(g.index, name), (g: IndexGeneration) => Some(GenerationLine(c, g)))
  }

  /** The lines of metaDataString(Manifest, num, name). */
  function ManifestLines(c: Codec, m: Manifest, num: int, name: string): seq<string> {
    ManifestHeader(m)
    + if |name| > 0 then Present(GenerationsNamed(c, m.indexGenerations, name))
      else Capped(AllSome(GenerationLines(c, m.indexGenerations)), num, MANIFEST_MORE)
  }

  /** metaDataString(Manifest, num, name). */
  method ManifestString(c: Codec, m: Manifest, num: int, name: string) returns (s: string)
    ensures s == Join(ManifestLines(c, m, num, name))
  {
    ghost var out: seq<string> := [];
    var sb := "";
    var line := "Manifest:";
    sb := AppendLine(sb, out, line); out := out + [line];
    line := TAB2 + "currentTerm: " + IntToString(m.currentTerm);
    sb := AppendLine(sb, out, line); out := out + [line];
    line := TAB2 + "clusterStateVersion: " + IntToString(m.clusterStateVersion);
    sb := AppendLine(sb, out, line); out := out + [line];
    line := TAB2 + "globalGeneration: " + IntToString(m.globalGeneration);
    sb := AppendLine(sb, out, line); out := out + [line];
    line := SizeLine("indexGenerations", |m.indexGenerations|);
    sb := AppendLine(sb, out, line); out := out + [line];
    assert out == ManifestHeader(m);
    if |name| > 0 {
      sb := AppendNamedGenerations(c, m.indexGenerations, name, sb, out);
    } else {
      sb := AppendCappedGenerations(c, m.indexGenerations, num, sb, out);
    }
    s := sb;
  }

  /** The manifest walk by name (the forEach over the generations map). */
  method AppendNamedGenerations(c: Codec, gs: seq<IndexGeneration>, name: string, sb0: string, ghost out: seq<string>)
    returns (sb: string)
    requires sb0 == Join(out)
    ensures sb == Join(out + Present(GenerationsNamed(c, gs, name)))
  {
    ghost var entries := GenerationsNamed(c, gs, name);
    assert out + Present(entries[..0]) == out;
    sb := sb0;
    var i := 0;
    while i < |gs|
      invariant 0 <= i <= |gs|
      invariant sb == Join(out + Present(entries[..i]))
    {
      JoinPresentStep(out, entries, i);
      if Named(gs[i].index, name) {
        var line := TAB2 + TAB2 + c.indexText(gs[i].index) + ", " + "generation: " + IntToString(gs[i].generation);
        assert entries[i] == Some(line);
        sb := sb + line + "\n";
      }
      i := i + 1;
    }
    assert entries[..|gs|] == entries;
  }

  /** The manifest walk under the cap num, with its count and its "..." line. */
  method AppendCappedGenerations(c: Codec, gs: seq<IndexGeneration>, num: int, sb0: string, ghost out: seq<string>)
    returns (sb: string)
    requires sb0 == Join(out)
    ensures sb == Join(out + Capped(AllSome(GenerationLines(c, gs)), num, MANIFEST_MORE))
  {
    ghost var entries := AllSome(GenerationLines(c, gs));
    assert out + Present(entries[..0]) == out;
    sb := sb0;
    var count := 0;
    var i := 0;
    while i < |gs|
      invariant 0 <= i <= |gs|
      invariant num >= 0 ==> count == i <= num
      invariant sb == Join(out + Present(entries[..i]))
    {
      if num >= 0 {
        count := count + 1;
        if count > num {
          assert i == num < |entries|;
          assert Capped(entries, num, MANIFEST_MORE) == Present(entries[..i]) + [MANIFEST_MORE];
          JoinMore(out, Present(entries[..i]), MANIFEST_MORE);
          sb := sb + MANIFEST_MORE + "\n";
          break;
        }
      }
      JoinPresentStep(out, entries, i);
      var line := TAB2 + TAB2 + c.indexText(gs[i].index) + ", " + "generation: " + IntToString(gs[i].generation);
      assert entries[i] == Some(line);
      sb := sb + line + "\n";
      i := i + 1;
    }
    if i == |gs| {
      assert entries[..|gs|] == entries;
      assert Capped(entries, num, MANIFEST_MORE) == Present(entries);
    }
  }

  /**
   * Without a name the manifest walk is capped: a negative num prints every entry; otherwise the
   * first min(num, n) entries in order, then one "..." line exactly when entries are left over,
   * and nothing after it.
   */
  lemma ManifestCapped(c: Codec, m: Manifest, num: int)
    ensures var lines := GenerationLines(c, m.indexGenerations);
            var n := |m.indexGenerations|;
            && (num < 0 ==> ManifestLines(c, m, num, "") == ManifestHeader(m) + lines)
            && (num >= 0 ==> ManifestLines(c, m, num, "")
                             == ManifestHeader(m) + lines[..Min(num, n)] + (if n > num then [MANIFEST_MORE] else []))
  {
    var lines := GenerationLines(c, m.indexGenerations);
    CappedShape(lines, num, MANIFEST_MORE);
  }

  /**
   * With a name the cap is ignored: the report lists exactly the entries whose index name or
   * UUID equals the name up to case, in order, without "..."; no match leaves the header alone.
   */
  lemma ManifestByName(c: Codec, m: Manifest, num: int, name: string)
    requires |name| > 0
    ensures var chosen := Filter(m.indexGenerations, (g: IndexGeneration) => Named(g.index, name));
            ManifestLines(c, m, num, name) == ManifestHeader(m) + GenerationLines(c, chosen)
    ensures MANIFEST_MORE !in ManifestLines(c, m, num, name)[|ManifestHeader(m)|..]
    ensures (forall i :: 0 <= i < |m.indexGenerations| ==> !Named(m.indexGenerations[i].index, name))
            ==> ManifestLines(c, m, num, name) == ManifestHeader(m)
  {
    var keep := (g: IndexGeneration) => Named(g.index, name);
    var chosen := Filter(m.indexGenerations, keep);
    var body := GenerationLines(c, chosen);
    assert ManifestLines(c, m, num, name) == ManifestHeader(m) + body by {
      var render := (g: IndexGeneration) => Some(GenerationLine(c, g));
      SelectedIsFilter(m.indexGenerations, keep, render);
      assert Rendered(chosen, render) == AllSome(body);
      PresentAllSome(body);
    }
    assert ManifestLines(c, m, num, name)[|ManifestHeader(m)|..] == body;
    assert MANIFEST_MORE !in body by {
      forall i | 0 <= i < |body|
        ensures body[i] != MANIFEST_MORE
      {
        assert |body[i]| >= |TAB2 + TAB2 + ", generation: "| > |MANIFEST_MORE|;
      }
    }
    if forall i :: 0 <= i < |m.indexGenerations| ==> !Named(m.indexGenerations[i].index, name) {
      FilterNone(m.indexGenerations, keep);
      assert ManifestHeader(m) + [] == ManifestHeader(m);
    }
  }

  // ---------------------------------------------------------------- global metadata

  /** A settings section: its size, then its printed form only when it is not empty. */
  function SettingsBlock(title: string, size: nat, text: string): seq<string> {
    [SizeLine(title, size)] + if size > 0 then [TAB2 + TAB3 + text] else []
  }

  /** The scalar fields and the coordination sub-block. */
  function GlobalHeader(md: MetaData): seq<string> {
    ["MetaData:",
     TAB2 + "cluster_uuid: " + md.clusterUUID + " [committed: " + BoolText(md.clusterUUIDCommitted) + "]",
     TAB2 + "version: " + IntToString(md.version),
     TAB2 + "coordination_metadata:",
     TAB2 + TAB3 + "term: " + IntToString(md.coordination.term),
     TAB2 + TAB3 + "last_committed_config: " + md.coordination.lastCommittedConfig,
     TAB2 + TAB3 + "last_accepted_config: " + md.coordination.lastAcceptedConfig,
     TAB2 + TAB3 + "voting_config_exclusions: " + md.coordination.votingConfigExclusions]
  }

  function GlobalPreamble(c: Codec, md: MetaData): seq<string> {
    GlobalHeader(md)
    + SettingsBlock("persistent_settings", |md.persistentSettings|, c.settingsText(md.persistentSettings))
    + SettingsBlock("transient_settings", |md.transientSettings|, c.settingsText(md.transientSettings))
    + SettingsBlock("hashes_of_consistent_settings", |md.hashesOfConsistentSettings|, c.hashesText(md.hashesOfConsistentSettings))
  }

  /** A template in full, as the name filter prints it; None when its encoding fails. */
  function TemplateFull(c: Codec, t: Template): Option<string> {
    var json := c.templateJson(t);
    if json.Some? then Some(TAB2 + TAB3 + t.name + ": " + json.value) else None
  }

  /** A template as the capped walk prints it: its encoding cut to `limit` characters. */
  function TemplateEntry(c: Codec, t: Template, limit: int): Option<string> {
    var json := c.templateJson(t);
    if json.Some? then Some(TAB2 + TAB3 + t.name + ": " + LimitStr(json.value, limit)) else None
  }

  function TemplateFullOf(c: Codec): Template -> Option<string> {
    (t: Template) => TemplateFull(c, t)
  }

  function TemplateEntryOf(c: Codec, limit: int): Template -> Option<string> {
    (t: Template) => TemplateEntry(c, t, limit)
  }

  function TemplateMatches(tempName: string): Template -> bool {
    (t: Template) => EqualsIgnoreCase(t.name, tempName)
  }

  /** The template walk: by name when tempName is not empty, otherwise capped and truncated. */
  function TemplateLines(c: Codec, ts: seq<Template>, num: int, limit: int, tempName: string): seq<string> {
    if |tempName| > 0 then Present(Selected(ts, TemplateMatches(tempName), TemplateFullOf(c)))
    else Capped(Rendered(ts, TemplateEntryOf(c, limit)), num, ENTRY_MORE)
  }

  /** An index definition in full, as the single-index lookup prints it. */
  function IndexFull(c: Codec, ix: IndexMetaData): Option<string> {
    var json := c.indexJson(ix);
    if json.Some? then Some(TAB2 + TAB3 + c.indexText(ix.index) + ": " + json.value) else None
  }

  /** An index definition as the global report prints it: cut to `limit` characters. */
  function IndexEntry(c: Codec, ix: IndexMetaData, limit: int): Option<string> {
    var json := c.indexJson(ix);
    if json.Some? then Some(TAB2 + TAB3 + c.indexText(ix.index) + ": " + LimitStr(json.value, limit)) else None
  }

  function IndexFullOf(c: Codec): IndexMetaData -> Option<string> {
    (ix: IndexMetaData) => IndexFull(c, ix)
  }

  function IndexEntryOf(c: Codec, limit: int): IndexMetaData -> Option<string> {
    (ix: IndexMetaData) => IndexEntry(c, ix, limit)
  }

  function IndexLines(c: Codec, indices: seq<IndexMetaData>, num: int, limit: int): seq<string> {
    Capped(Rendered(indices, IndexEntryOf(c, limit)), num, ENTRY_MORE)
  }

  /** A custom block under its type tag, cut to `limit` characters. */
  function CustomLine(c: Codec, e: CustomEntry, limit: int): Option<string> {
    var json := c.customJson(e.custom);
    if json.Some? then Some(TAB2 + TAB3 + e.typeTag + ": " + LimitStr(json.value, limit)) else None
  }

  function CustomLineOf(c: Codec, limit: int): CustomEntry -> Option<string> {
    (e: CustomEntry) => CustomLine(c, e, limit)
  }

  function CustomLines(c: Codec, customs: seq<CustomEntry>, limit: int): seq<string> {
    Present(Rendered(customs, CustomLineOf(c, limit)))
  }

  /** The lines of metaDataString(MetaData, num, limit, tempName). */
  function GlobalLines(c: Codec, md: MetaData, num: int, limit: int, tempName: string): seq<string> {
    GlobalPreamble(c, md)
    + [SizeLine("templates", |md.templates|)] + TemplateLines(c, md.templates, num, limit, tempName)
    + [SizeLine("indices", |md.indices|)] + IndexLines(c, md.indices, num, limit)
    + [SizeLine("customs", |md.customs|)] + CustomLines(c, md.customs, limit)
  }

  /** metaDataString(MetaData, num, limit, tempName). */
  method GlobalString(c: Codec, md: MetaData, num: int, limit: int, tempName: string) returns (s: string)
    ensures s == Join(GlobalLines(c, md, num, limit, tempName))
  {
    var sb := PreambleString(c, md);
    ghost var out := GlobalPreamble(c, md);
    var line := SizeLine("templates", |md.templates|);
    sb := AppendLine(sb, out, line); out := out + [line];
    sb := AppendTemplates(c, md.templates, num, limit, tempName, sb, out);
    out := out + TemplateLines(c, md.templates, num, limit, tempName);

    line := SizeLine("indices", |md.indices|);
    sb := AppendLine(sb, out, line); out := out + [line];
    sb := AppendIndices(c, md.indices, num, limit, sb, out);
    out := out + IndexLines(c, md.indices, num, limit);

    line := SizeLine("customs", |md.customs|);
    sb := AppendLine(sb, out, line); out := out + [line];
    if |md.customs| > 0 {
      sb := AppendCustoms(c, md.customs, limit, sb, out);
    } else {
      assert CustomLines(c, md.customs, limit) == [];
      assert out + [] == out;
    }
    out := out + CustomLines(c, md.customs, limit);
    s := sb;
  }

  /** The header and the three settings sections of the global report. */
  method PreambleString(c: Codec, md: MetaData) returns (sb: string)
    ensures sb == Join(GlobalPreamble(c, md))
  {
    sb := GlobalHeaderString(md);
    ghost var out := GlobalHeader(md);
    sb := AppendSettings("persistent_settings", |md.persistentSettings|, c.settingsText(md.persistentSettings), sb, out);
    out := out + SettingsBlock("persistent_settings", |md.persistentSettings|, c.settingsText(md.persistentSettings));
    sb := AppendSettings("transient_settings", |md.transientSettings|, c.settingsText(md.transientSettings), sb, out);
    out := out + SettingsBlock("transient_settings", |md.transientSettings|, c.settingsText(md.transientSettings));
    sb := AppendSettings("hashes_of_consistent_settings", |md.hashesOfConsistentSettings|,
                         c.hashesText(md.hashesOfConsistentSettings), sb, out);
    out := out + SettingsBlock("hashes_of_consistent_settings", |md.hashesOfConsistentSettings|,
                               c.hashesText(md.hashesOfConsistentSettings));
  }

  /** The scalar fields and the coordination sub-block of the global report. */
  method GlobalHeaderString(md: MetaData) returns (sb: string)
    ensures sb == Join(GlobalHeader(md))
  {
    ghost var out: seq<string> := [];
    sb := "";
    var line := "MetaData:";
    sb := AppendLine(sb, out, line); out := out + [line];
    line := TAB2 + "cluster_uuid: " + md.clusterUUID + " [committed: " + BoolText(md.clusterUUIDCommitted) + "]";
    sb := AppendLine(sb, out, line); out := out + [line];
    line := TAB2 + "version: " + IntToString(md.version);
    sb := AppendLine(sb, out, line); out := out + [line];
    var coordination := md.coordination;
    line := TAB2 + "coordination_metadata:";
    sb := AppendLine(sb, out, line); out := out + [line];
    line := TAB2 + TAB3 + "term: " + IntToString(coordination.term);
    sb := AppendLine(sb, out, line); out := out + [line];
    line := TAB2 + TAB3 + "last_committed_config: " + coordination.lastCommittedConfig;
    sb := AppendLine(sb, out, line); out := out + [line];
    line := TAB2 + TAB3 + "last_accepted_config: " + coordination.lastAcceptedConfig;
    sb := AppendLine(sb, out, line); out := out + [line];
    line := TAB2 + TAB3 + "voting_config_exclusions: " + coordination.votingConfigExclusions;
    sb := AppendLine(sb, out, line); out := out + [line];
    assert out == GlobalHeader(md);
  }

  /** One settings section: the size line, then the content line if the settings are not empty. */
  method AppendSettings(title: string, size: nat, text: string, sb0: string, ghost out: seq<string>)
    returns (sb: string)
    requires sb0 == Join(out)
    ensures sb == Join(out + SettingsBlock(title, size, text))
  {
    var line := SizeLine(title, size);
    sb := AppendLine(sb0, out, line);
    if size > 0 {
      var content := TAB2 + TAB3 + text;
      sb := AppendLine(sb, out + [line], content);
      assert out + SettingsBlock(title, size, text) == out + [line] + [content];
    } else {
      assert out + SettingsBlock(title, size, text) == out + [line];
    }
  }

  /**
   * The template walk: each template is looked at in turn; with a name, the matching ones print
   * in full and the walk goes on; without one, the count and the cap apply first.
   */
  method AppendTemplates(c: Codec, ts: seq<Template>, num: int, limit: int, tempName: string,
                         sb0: string, ghost out: seq<string>)
    returns (sb: string)
    requires sb0 == Join(out)
    ensures sb == Join(out + TemplateLines(c, ts, num, limit, tempName))
  {
    ghost var walked := if |tempName| > 0 then Selected(ts, TemplateMatches(tempName), TemplateFullOf(c))
                        else Rendered(ts, TemplateEntryOf(c, limit));
    assert out + Present(walked[..0]) == out;
    sb := sb0;
    var count := 0;
    var i := 0;
    while i < |ts|
      invariant 0 <= i <= |ts|
      invariant sb == Join(out + Present(walked[..i]))
      invariant |tempName| == 0 && num >= 0 ==> count == i <= num
    {
      if |tempName| > 0 {
        sb := AppendTemplateByName(c, ts, tempName, i, sb, out);
        i := i + 1;
        continue;
      }
      if num >= 0 {
        count := count + 1;
        if count > num {
          assert i == num < |walked|;
          assert Capped(walked, num, ENTRY_MORE) == Present(walked[..i]) + [ENTRY_MORE];
          JoinMore(out, Present(walked[..i]), ENTRY_MORE);
          sb := sb + ENTRY_MORE + "\n";
          break;
        }
      }
      sb := AppendTemplateEntry(c, ts, limit, i, sb, out);
      i := i + 1;
    }
    if i == |ts| {
      assert walked[..|ts|] == walked;
      assert |tempName| == 0 ==> Capped(walked, num, ENTRY_MORE) == Present(walked);
    }
  }

  /** One template of the walk by name: printed in full when its name matches and it encodes. */
  method AppendTemplateByName(c: Codec, ts: seq<Template>, tempName: string, i: nat, sb0: string, ghost out: seq<string>)
    returns (sb: string)
    requires i < |ts|
    requires sb0 == Join(out + Present(Selected(ts, TemplateMatches(tempName), TemplateFullOf(c))[..i]))
    ensures sb == Join(out + Present(Selected(ts, TemplateMatches(tempName), TemplateFullOf(c))[..i + 1]))
  {
    ghost var named := Selected(ts, TemplateMatches(tempName), TemplateFullOf(c));
    JoinPresentStep(out, named, i);
    var t := ts[i];
    sb := sb0;
    if EqualsIgnoreCase(t.name, tempName) {
      var json := c.templateJson(t);
      if json.Some? {
        var line := TAB2 + TAB3 + t.name + ": " + json.value;
        assert named[i] == Some(line);
        sb := sb + line + "\n";
      } else {
        assert named[i] == None;
      }
    } else {
      assert named[i] == None;
    }
  }

  /** One template of the capped walk: its encoding cut to limit, or nothing when it fails. */
  method AppendTemplateEntry(c: Codec, ts: seq<Template>, limit: int, i: nat, sb0: string, ghost out: seq<string>)
    returns (sb: string)
    requires i < |ts|
    requires sb0 == Join(out + Present(Rendered(ts, TemplateEntryOf(c, limit))[..i]))
    ensures sb == Join(out + Present(Rendered(ts, TemplateEntryOf(c, limit))[..i + 1]))
  {
    ghost var entries := Rendered(ts, TemplateEntryOf(c, limit));
    JoinPresentStep(out, entries, i);
    var t := ts[i];
    sb := sb0;
    var json := c.templateJson(t);
    if json.Some? {
      var line := TAB2 + TAB3 + t.name + ": " + LimitStr(json.value, limit);
      assert entries[i] == Some(line);
      sb := sb + line + "\n";
    } else {
      assert entries[i] == None;
    }
  }

  /** The index walk of the global report: counted, capped and truncated. */
  method AppendIndices(c: Codec, indices: seq<IndexMetaData>, num: int, limit: int,
                       sb0: string, ghost out: seq<string>)
    returns (sb: string)
    requires sb0 == Join(out)
    ensures sb == Join(out + IndexLines(c, indices, num, limit))
  {
    ghost var entries := Rendered(indices, IndexEntryOf(c, limit));
    assert out + Present(entries[..0]) == out;
    sb := sb0;
    var count := 0;
    var i := 0;
    while i < |indices|
      invariant 0 <= i <= |indices|
      invariant num >= 0 ==> count == i <= num
      invariant sb == Join(out + Present(entries[..i]))
    {
      if num >= 0 {
        count := count + 1;
        if count > num {
          assert i == num < |entries|;
          assert Capped(entries, num, ENTRY_MORE) == Present(entries[..i]) + [ENTRY_MORE];
          JoinMore(out, Present(entries[..i]), ENTRY_MORE);
          sb := sb + ENTRY_MORE + "\n";
          break;
        }
      }
      JoinPresentStep(out, entries, i);
      var ix := indices[i];
      var json := c.indexJson(ix);
      if json.Some? {
        var line := TAB2 + TAB3 + c.indexText(ix.index) + ": " + LimitStr(json.value, limit);
        sb := sb + line + "\n";
      }
      i := i + 1;
    }
    if i == |indices| {
      assert entries[..|indices|] == entries;
      assert Capped(entries, num, ENTRY_MORE) == Present(entries);
    }
  }

  /** The custom walk: every block, truncated, without a cap. */
  method AppendCustoms(c: Codec, customs: seq<CustomEntry>, limit: int, sb0: string, ghost out: seq<string>)
    returns (sb: string)
    requires sb0 == Join(out)
    ensures sb == Join(out + CustomLines(c, customs, limit))
  {
    ghost var entries := Rendered(customs, CustomLineOf(c, limit));
    assert out + Present(entries[..0]) == out;
    sb := sb0;
    var i := 0;
    while i < |customs|
      invariant 0 <= i <= |customs|
      invariant sb == Join(out + Present(entries[..i]))
    {
      JoinPresentStep(out, entries, i);
      var tag := customs[i].typeTag;
      var json := c.customJson(customs[i].custom);
      if json.Some? {
        var line := TAB2 + TAB3 + tag + ": " + LimitStr(json.value, limit);
        sb := sb + line + "\n";
      }
      i := i + 1;
    }
    assert entries[..|customs|] == entries;
  }

  // ---------------------------------------------------------------- single index

  function IndexNamed(name: string): IndexMetaData -> bool {
    (ix: IndexMetaData) => Named(ix.index, name)
  }

  /** The text of metaDataString(MetaData, name). */
  function IndexReport(c: Codec, md: MetaData, name: string): string {
    if |name| > 0 then Join(["IndexMetaData:"] + Present(Selected(md.indices, IndexNamed(name), IndexFullOf(c))))
    else Join(["IndexMetaData:"]) + TAB2 + TAB3 + "not found"
  }

  /** metaDataString(MetaData, name). */
  method IndexString(c: Codec, md: MetaData, name: string) returns (s: string)
    ensures s == IndexReport(c, md, name)
  {
    ghost var out: seq<string> := [];
    var sb := "";
    var line := "IndexMetaData:";
    sb := AppendLine(sb, out, line); out := out + [line];
    if |name| > 0 {
      sb := AppendNamedIndices(c, md.indices, name, sb, out);
    } else {
      sb := sb + TAB2 + TAB3 + "not found";
    }
    s := sb;
  }

  /** The lookup walk: every index whose name or UUID matches prints in full. */
  method AppendNamedIndices(c: Codec, indices: seq<IndexMetaData>, name: string, sb0: string, ghost out: seq<string>)
    returns (sb: string)
    requires sb0 == Join(out)
    ensures sb == Join(out + Present(Selected(indices, IndexNamed(name), IndexFullOf(c))))
  {
    ghost var entries := Selected(indices, IndexNamed(name), IndexFullOf(c));
    assert out + Present(entries[..0]) == out;
    sb := sb0;
    var i := 0;
    while i < |indices|
      invariant 0 <= i <= |indices|
      invariant sb == Join(out + Present(entries[..i]))
    {
      JoinPresentStep(out, entries, i);
      var ix := indices[i];
      assert entries[i] == if Named(ix.index, name) then IndexFull(c, ix) else None;
      if EqualsIgnoreCase(ix.index.name, name) || EqualsIgnoreCase(ix.index.uuid, name) {
        var json := c.indexJson(ix);
        if json.Some? {
          var entry := TAB2 + TAB3 + c.indexText(ix.index) + ": " + json.value;
          sb := sb + entry + "\n";
        }
      }
      i := i + 1;
    }
    assert entries[..|indices|] == entries;
  }

  // ---------------------------------------------------------------- properties of the reports

  /** Cutting the encoded part of a line keeps a prefix of the whole line, at most limit longer than its head. */
  lemma TruncatedLine(head: string, json: string, limit: int)
    ensures head + LimitStr(json, limit) <= head + json
    ensures limit >= 0 ==> |head + LimitStr(json, limit)| <= |head| + limit
    ensures limit < 0 || |json| <= limit ==> head + LimitStr(json, limit) == head + json
  {
  }

  /**
   * A template in the capped walk is its full rendering cut short: the same failures, a prefix of
   * the full line, at most `limit` characters of encoding, and the full line when limit < 0.
   */
  lemma TemplateEntryTruncates(c: Codec, t: Template, limit: int)
    ensures TemplateEntry(c, t, limit).Some? <==> TemplateFull(c, t).Some?
    ensures TemplateEntry(c, t, limit).Some? ==> TemplateEntry(c, t, limit).value <= TemplateFull(c, t).value
    ensures TemplateEntry(c, t, limit).Some? && limit >= 0
            ==> |TemplateEntry(c, t, limit).value| <= |TAB2 + TAB3 + t.name + ": "| + limit
    ensures limit < 0 ==> TemplateEntry(c, t, limit) == TemplateFull(c, t)
  {
  }

  /** The same for an index definition: the global report cuts what the single-index lookup prints whole. */
  lemma IndexEntryTruncates(c: Codec, ix: IndexMetaData, limit: int)
    ensures IndexEntry(c, ix, limit).Some? <==> IndexFull(c, ix).Some?
    ensures IndexEntry(c, ix, limit).Some? ==> IndexEntry(c, ix, limit).value <= IndexFull(c, ix).value
    ensures IndexEntry(c, ix, limit).Some? && limit >= 0
            ==> |IndexEntry(c, ix, limit).value| <= |TAB2 + TAB3 + c.indexText(ix.index) + ": "| + limit
    ensures limit < 0 ==> IndexEntry(c, ix, limit) == IndexFull(c, ix)
  {
  }

  /** Custom blocks are truncated as well: a prefix of the whole block, at most `limit` characters of it. */
  lemma CustomLineTruncates(c: Codec, e: CustomEntry, limit: int)
    ensures CustomLine(c, e, limit).Some? <==> c.customJson(e.custom).Some?
    ensures CustomLine(c, e, limit).Some?
            ==> CustomLine(c, e, limit).value <= TAB2 + TAB3 + e.typeTag + ": " + c.customJson(e.custom).value
    ensures CustomLine(c, e, limit).Some? && limit >= 0
            ==> |CustomLine(c, e, limit).value| <= |TAB2 + TAB3 + e.typeTag + ": "| + limit
  {
  }

  /**
   * A template name overrides the cap and the truncation: the walk prints exactly the matching
   * templates in full, in order, whatever num and limit are, with one line per match when every
   * match encodes, and nothing when none matches.
   */
  lemma TemplatesByName(c: Codec, ts: seq<Template>, num: int, limit: int, tempName: string, num': int, limit': int)
    requires |tempName| > 0
    ensures TemplateLines(c, ts, num, limit, tempName)
            == Present(Rendered(Filter(ts, TemplateMatches(tempName)), TemplateFullOf(c)))
    ensures TemplateLines(c, ts, num, limit, tempName) == TemplateLines(c, ts, num', limit', tempName)
    ensures (forall i :: 0 <= i < |ts| && EqualsIgnoreCase(ts[i].name, tempName) ==> c.templateJson(ts[i]).Some?)
            ==> |TemplateLines(c, ts, num, limit, tempName)| == |Filter(ts, TemplateMatches(tempName))|
    ensures (forall i :: 0 <= i < |ts| ==> !EqualsIgnoreCase(ts[i].name, tempName))
            ==> TemplateLines(c, ts, num, limit, tempName) == []
  {
    var keep := TemplateMatches(tempName);
    var full := TemplateFullOf(c);
    var chosen := Filter(ts, keep);
    SelectedIsFilter(ts, keep, full);
    if forall i :: 0 <= i < |ts| && keep(ts[i]) ==> c.templateJson(ts[i]).Some? {
      PresentRenderedAll(chosen, full);
    }
    if forall i :: 0 <= i < |ts| ==> !keep(ts[i]) {
      FilterNone(ts, keep);
    }
  }

  /**
   * Without a template name the walk is capped: num < 0 prints every template; otherwise the
   * first min(num, n) templates (those that encode), then "..." exactly when templates are left.
   */
  lemma TemplatesCapped(c: Codec, ts: seq<Template>, num: int, limit: int)
    ensures var entries := Rendered(ts, TemplateEntryOf(c, limit));
            && (num < 0 ==> TemplateLines(c, ts, num, limit, "") == Present(entries))
            && (num >= 0 ==> TemplateLines(c, ts, num, limit, "")
                             == Present(entries[..Min(num, |ts|)]) + (if |ts| > num then [ENTRY_MORE] else []))
            && (num >= 0 ==> |TemplateLines(c, ts, num, limit, "")| <= Min(num, |ts|) + 1)
  {
    CappedPrefix(Rendered(ts, TemplateEntryOf(c, limit)), num, ENTRY_MORE);
  }

  /** The index walk is always capped, with the same shape. */
  lemma IndicesCapped(c: Codec, indices: seq<IndexMetaData>, num: int, limit: int)
    ensures var entries := Rendered(indices, IndexEntryOf(c, limit));
            && (num < 0 ==> IndexLines(c, indices, num, limit) == Present(entries))
            && (num >= 0 ==> IndexLines(c, indices, num, limit)
                             == Present(entries[..Min(num, |indices|)]) + (if |indices| > num then [ENTRY_MORE] else []))
            && (num >= 0 ==> |IndexLines(c, indices, num, limit)| <= Min(num, |indices|) + 1)
  {
    CappedPrefix(Rendered(indices, IndexEntryOf(c, limit)), num, ENTRY_MORE);
  }

  /**
   * An index that fails to encode within the cap still uses up its place: fewer than num index
   * lines print, and the walk still stops with "...".
   */
  lemma IndexFailureCounts(c: Codec, indices: seq<IndexMetaData>, num: int, limit: int, j: nat)
    requires 0 <= j < num < |indices|
    requires c.indexJson(indices[j]).None?
    ensures |IndexLines(c, indices, num, limit)| <= num
    ensures IndexLines(c, indices, num, limit)[|IndexLines(c, indices, num, limit)| - 1] == ENTRY_MORE
  {
    var entries := Rendered(indices, IndexEntryOf(c, limit));
    assert entries[j].None?;
    FailureConsumesCap(entries, num, ENTRY_MORE, j);
  }

  /** The same for a template in the capped walk. */
  lemma TemplateFailureCounts(c: Codec, ts: seq<Template>, num: int, limit: int, j: nat)
    requires 0 <= j < num < |ts|
    requires c.templateJson(ts[j]).None?
    ensures |TemplateLines(c, ts, num, limit, "")| <= num
    ensures TemplateLines(c, ts, num, limit, "")[|TemplateLines(c, ts, num, limit, "")| - 1] == ENTRY_MORE
  {
    var entries := Rendered(ts, TemplateEntryOf(c, limit));
    assert entries[j].None?;
    FailureConsumesCap(entries, num, ENTRY_MORE, j);
  }

  /** A custom block that fails to encode drops its own line and leaves the others alone. */
  lemma CustomFailureIsolated(c: Codec, before: seq<CustomEntry>, e: CustomEntry, after: seq<CustomEntry>, limit: int)
    requires c.customJson(e.custom).None?
    ensures CustomLines(c, before + [e] + after, limit) == CustomLines(c, before, limit) + CustomLines(c, after, limit)
  {
    var render := CustomLineOf(c, limit);
    RenderedSplit(before, e, after, render);
    FailureIsolated(Rendered(before, render), Rendered(after, render));
  }

  /**
   * Custom blocks are never capped: the report ends with one line per encodable block, the same
   * for every num and template name, and with the customs header when there are none.
   */
  lemma CustomsUncapped(c: Codec, md: MetaData, num: int, limit: int, tempName: string)
    ensures var g := GlobalLines(c, md, num, limit, tempName);
            var cs := CustomLines(c, md.customs, limit);
            |cs| <= |g| && g[|g| - |cs|..] == cs
    ensures (forall i :: 0 <= i < |md.customs| ==> c.customJson(md.customs[i].custom).Some?)
            ==> |CustomLines(c, md.customs, limit)| == |md.customs|
    ensures |md.customs| == 0
            ==> var g := GlobalLines(c, md, num, limit, tempName); g[|g| - 1] == SizeLine("customs", 0)
  {
    var render := CustomLineOf(c, limit);
    if forall i :: 0 <= i < |md.customs| ==> c.customJson(md.customs[i].custom).Some? {
      forall i | 0 <= i < |md.customs|
        ensures render(md.customs[i]).Some?
      {
      }
      PresentRenderedAll(md.customs, render);
    }
  }

  /** The three settings headers of the preamble, each followed by its text when not empty. */
  lemma PreambleHeaders(c: Codec, md: MetaData)
    ensures var pre := GlobalPreamble(c, md);
            var h := |GlobalHeader(md)|;
            var ps := if |md.persistentSettings| > 0 then 2 else 1;
            var ts := if |md.transientSettings| > 0 then 2 else 1;
            var hs := if |md.hashesOfConsistentSettings| > 0 then 2 else 1;
            && |pre| == h + ps + ts + hs
            && pre[h] == SizeLine("persistent_settings", |md.persistentSettings|)
            && pre[h + ps] == SizeLine("transient_settings", |md.transientSettings|)
            && pre[h + ps + ts] == SizeLine("hashes_of_consistent_settings", |md.hashesOfConsistentSettings|)
  {
    var head := GlobalHeader(md);
    var pb := SettingsBlock("persistent_settings", |md.persistentSettings|, c.settingsText(md.persistentSettings));
    var tb := SettingsBlock("transient_settings", |md.transientSettings|, c.settingsText(md.transientSettings));
    var hb := SettingsBlock("hashes_of_consistent_settings", |md.hashesOfConsistentSettings|, c.hashesText(md.hashesOfConsistentSettings));
    var pre := GlobalPreamble(c, md);
    assert pre == head + pb + tb + hb;
    assert pre[|head|] == pb[0];
    assert pre[|head| + |pb|] == tb[0];
    assert pre[|head| + |pb| + |tb|] == hb[0];
  }

  /**
   * Every section header reports the size of the whole collection, whatever the cap, the name,
   * the limit and the encoding failures.
   */
  lemma SectionHeadersFullSize(c: Codec, md: MetaData, num: int, limit: int, tempName: string)
    ensures var g := GlobalLines(c, md, num, limit, tempName);
            var p := |GlobalPreamble(c, md)|;
            var t := |TemplateLines(c, md.templates, num, limit, tempName)|;
            var x := |IndexLines(c, md.indices, num, limit)|;
            var h := |GlobalHeader(md)|;
            var ps := if |md.persistentSettings| > 0 then 2 else 1;
            var ts := if |md.transientSettings| > 0 then 2 else 1;
            && g[h] == SizeLine("persistent_settings", |md.persistentSettings|)
            && g[h + ps] == SizeLine("transient_settings", |md.transientSettings|)
            && g[h + ps + ts] == SizeLine("hashes_of_consistent_settings", |md.hashesOfConsistentSettings|)
            && g[p] == SizeLine("templates", |md.templates|)
            && g[p + 1 + t] == SizeLine("indices", |md.indices|)
            && g[p + 2 + t + x] == SizeLine("customs", |md.customs|)
  {
    PreambleHeaders(c, md);
    var pre := GlobalPreamble(c, md);
    var lt := SizeLine("templates", |md.templates|);
    var li := SizeLine("indices", |md.indices|);
    var lc := SizeLine("customs", |md.customs|);
    var t := TemplateLines(c, md.templates, num, limit, tempName);
    var x := IndexLines(c, md.indices, num, limit);
    var cs := CustomLines(c, md.customs, limit);
    assert GlobalLines(c, md, num, limit, tempName) == pre + [lt] + t + [li] + x + [lc] + cs;
    SectionPositions(pre, lt, t, li, x, lc, cs);
  }

  /** Where the pieces of a report made of a preamble and three titled sections sit. */
  lemma SectionPositions(pre: seq<string>, lt: string, t: seq<string>, li: string, x: seq<string>,
                         lc: string, cs: seq<string>)
    ensures var g := pre + [lt] + t + [li] + x + [lc] + cs;
            && (forall i :: 0 <= i < |pre| ==> g[i] == pre[i])
            && g[|pre|] == lt
            && g[|pre| + 1 + |t|] == li
            && g[|pre| + 2 + |t| + |x|] == lc
  {
  }

  /** The manifest header reports the number of all generation entries. */
  lemma ManifestSizeLine(c: Codec, m: Manifest, num: int, name: string)
    ensures ManifestLines(c, m, num, name)[4] == SizeLine("indexGenerations", |m.indexGenerations|)
  {
  }

  /**
   * The single-index lookup without a name prints the header and the "not found" placeholder,
   * with no line break after it.
   */
  lemma IndexLookupEmpty(c: Codec, md: MetaData)
    ensures IndexReport(c, md, "") == "IndexMetaData:\n" + "  " + "   " + "not found"
    ensures SplitLines(IndexReport(c, md, "")) == ["IndexMetaData:", TAB2 + TAB3 + "not found"]
  {
    PlaceholderPieces();
    var tail := TAB2 + TAB3 + "not found";
    SplitJoin(["IndexMetaData:"], tail);
    assert IndexReport(c, md, "") == Join(["IndexMetaData:"]) + tail;
  }

  /** The header of the lookup is one line, and the placeholder holds no line break. */
  lemma PlaceholderPieces()
    ensures Join(["IndexMetaData:"]) == "IndexMetaData:\n"
    ensures SingleLines(["IndexMetaData:"])
    ensures '\n' !in TAB2 + TAB3 + "not found"
  {
    JoinSnoc([], "IndexMetaData:");
    assert [] + ["IndexMetaData:"] == ["IndexMetaData:"];
  }

  /**
   * With a name, the lookup prints every index whose name or UUID matches it up to case, in full
   * and in order; when none matches it prints the header alone, without "not found".
   */
  lemma IndexLookupByName(c: Codec, md: MetaData, name: string)
    requires |name| > 0
    ensures IndexReport(c, md, name)
            == Join(["IndexMetaData:"] + Present(Rendered(Filter(md.indices, IndexNamed(name)), IndexFullOf(c))))
    ensures (forall i :: 0 <= i < |md.indices| ==> !Named(md.indices[i].index, name))
            ==> IndexReport(c, md, name) == "IndexMetaData:\n"
  {
    var keep := IndexNamed(name);
    var full := IndexFullOf(c);
    SelectedIsFilter(md.indices, keep, full);
    if forall i :: 0 <= i < |md.indices| ==> !Named(md.indices[i].index, name) {
      FilterNone(md.indices, keep);
      assert ["IndexMetaData:"] + Present(Rendered([], full)) == [] + ["IndexMetaData:"];
      JoinSnoc([], "IndexMetaData:");
    }
  }
}
