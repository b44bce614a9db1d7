/**
 * prepareEnhancedContext (DocumentService): the selected passages grouped
 * by content type and written out under one Markdown heading per group,
 * tables first, then six code types, then plain text; passages of every
 * other type are left out.
 */
module Context {
  import opened Dto
  import opened JavaStrings

  /** The group a passage falls in: its content type, TEXT when it has none. */
  function TypeOf(c: TextChunk): ContentType
  {
    if c.contentType.Some? then c.contentType.value else Text
  }

  /** The passages of one type, in their order (one list of groupingBy). */
  function OfType(chunks: seq<TextChunk>, t: ContentType): (g: seq<TextChunk>)
    ensures |g| <= |chunks|
    decreases |chunks|
  {
    if |chunks| == 0 then []
    else OfType(chunks[..|chunks| - 1], t) + (if TypeOf(Last(chunks)) == t then [Last(chunks)] else [])
  }

  /** A group holds exactly the passages of its type. */
  lemma {:induction false} OfTypeMembers(chunks: seq<TextChunk>, t: ContentType)
    ensures forall c :: c in OfType(chunks, t) <==> c in chunks && TypeOf(c) == t
    decreases |chunks|
  {
    if |chunks| > 0 {
      OfTypeMembers(chunks[..|chunks| - 1], t);
      assert chunks == chunks[..|chunks| - 1] + [Last(chunks)];
    }
  }

  /** The code types that get a section, in the order they are written. */
  const CodeTypes: seq<ContentType> := [CodeJava, CodePython, CodeJavaScript, CodeCSharp, CodeSql, CodeOther]

  /** Every type that gets a section, in the order they are written. */
  const SectionTypes: seq<ContentType> := [Table] + CodeTypes + [Text]

  /** The heading line of a section. */
  function Header(t: ContentType): string
  {
    if t == Table then "### Tables\n\n"
    else if t == Text then "### Document Text\n\n"
    else "### " + EnumName(t) + "\n\n"
  }

  /** Each passage's text followed by a blank line. */
  function Body(group: seq<TextChunk>): string
    decreases |group|
  {
    if |group| == 0 then "" else Body(group[..|group| - 1]) + Last(group).text + "\n\n"
  }

  /** One section: nothing for an empty group, otherwise its heading and its passages. */
  function Section(chunks: seq<TextChunk>, t: ContentType): string
  {
    var g := OfType(chunks, t);
    if g == [] then "" else Header(t) + Body(g)
  }

  /** The section of each type for the given passages. */
  function SectionOf(chunks: seq<TextChunk>): ContentType -> string
  {
    t => Section(chunks, t)
  }

  /** The sections of the given types, in order. */
  function Sections(section: ContentType -> string, ts: seq<ContentType>): string
    decreases |ts|
  {
    if |ts| == 0 then "" else Sections(section, ts[..|ts| - 1]) + section(Last(ts))
  }

  /**
   * The text prepareEnhancedContext builds. It is empty exactly when no
   * passage is a table, one of the six code types or text, and it opens with
   * the Tables heading whenever some passage is a table.
   */
  function ContextText(chunks: seq<TextChunk>): (r: string)
    ensures r == "" <==> forall c :: c in chunks ==> TypeOf(c) !in SectionTypes
    ensures (exists c :: c in chunks && TypeOf(c) == Table) ==> StartsWith(r, Header(Table))
  {
    var section := SectionOf(chunks);
    SectionsEmpty(section, SectionTypes);
    SectionsEmptyOf(chunks);
    TablesFirst(chunks);
    Sections(section, SectionTypes)
  }

  lemma SectionsSnoc(section: ContentType -> string, ts: seq<ContentType>, t: ContentType)
    ensures Sections(section, ts + [t]) == Sections(section, ts) + section(t)
  {
    assert (ts + [t])[..|ts|] == ts;
  }

  // ---------------------------------------------------------------------
  // The method
  // ---------------------------------------------------------------------

  /** groupingBy(content type, TEXT for none): one list per type that occurs. */
  method GroupByType(chunks: seq<TextChunk>) returns (byType: map<ContentType, seq<TextChunk>>)
    ensures forall t :: t in byType <==> OfType(chunks, t) != []
    ensures forall t :: t in byType ==> byType[t] == OfType(chunks, t)
  {
    byType := map[];
    for i := 0 to |chunks|
      invariant forall t :: t in byType <==> OfType(chunks[..i], t) != []
      invariant forall t :: t in byType ==> byType[t] == OfType(chunks[..i], t)
    {
      var c := chunks[i];
      var t := if c.contentType.Some? then c.contentType.value else Text;
      assert chunks[..i + 1][..i] == chunks[..i] && Last(chunks[..i + 1]) == c;
      if t in byType {
        byType := byType[t := byType[t] + [c]];
      } else {
        byType := byType[t := [c]];
      }
    }
    assert chunks[..|chunks|] == chunks;
  }

  /** The loop appending one group's passages, each followed by a blank line. */
  method AppendSection(context: string, header: string, group: seq<TextChunk>) returns (r: string)
    ensures r == context + header + Body(group)
  {
    r := context + header;
    for i := 0 to |group|
      invariant r == context + header + Body(group[..i])
    {
      assert group[..i + 1][..i] == group[..i] && Last(group[..i + 1]) == group[i];
      AppendAssoc(context + header, Body(group[..i]), group[i].text);
      r := r + group[i].text + "\n\n";
    }
    assert group[..|group|] == group;
  }

  /** One `if (chunksByType.containsKey(t))` block: the group's heading and passages, if any. */
  method AppendGroup(context: string, chunks: seq<TextChunk>, byType: map<ContentType, seq<TextChunk>>, t: ContentType)
    returns (r: string)
    requires t in byType <==> OfType(chunks, t) != []
    requires t in byType ==> byType[t] == OfType(chunks, t)
    ensures r == context + Section(chunks, t)
  {
    r := context;
    if t in byType {
      var header := Header(t);
      r := AppendSection(context, header, byType[t]);
      AppendAssoc(context, header, Body(byType[t]));
    } else {
      EmptyAppend(context);
    }
  }

  /** prepareEnhancedContext (the question is not used, as in the source). */
  method PrepareEnhancedContext(chunks: seq<TextChunk>, question: string) returns (context: string)
    ensures context == ContextText(chunks)
  {
    var byType := GroupByType(chunks);
    ghost var section := SectionOf(chunks);
    context := AppendGroup("", chunks, byType, Table);
    SectionsSnoc(section, [], Table);
    context := AppendCodeGroups(context, chunks, byType);
    SectionsSnoc(section, [Table] + CodeTypes, Text);
    assert [Table] + CodeTypes + [Text] == SectionTypes;
    context := AppendGroup(context, chunks, byType, Text);
    assert context == Sections(section, SectionTypes);
  }

  /** The loop over the six code types of prepareEnhancedContext, after the Tables section. */
  method AppendCodeGroups(context: string, chunks: seq<TextChunk>, byType: map<ContentType, seq<TextChunk>>)
    returns (r: string)
    requires forall t :: t in byType <==> OfType(chunks, t) != []
    requires forall t :: t in byType ==> byType[t] == OfType(chunks, t)
    requires context == Sections(SectionOf(chunks), [Table])
    ensures r == Sections(SectionOf(chunks), [Table] + CodeTypes)
  {
    r := context;
    for j := 0 to |CodeTypes|
      invariant r == Sections(SectionOf(chunks), [Table] + CodeTypes[..j])
    {
      var codeType := CodeTypes[j];
      SectionsStep(SectionOf(chunks), [Table], CodeTypes, j);
      r := AppendGroup(r, chunks, byType, codeType);
    }
    assert CodeTypes[..|CodeTypes|] == CodeTypes;
  }

  /** One more type of the list adds its section. */
  lemma SectionsStep(section: ContentType -> string, head: seq<ContentType>, ts: seq<ContentType>, j: nat)
    requires j < |ts|
    ensures Sections(section, head + ts[..j + 1]) == Sections(section, head + ts[..j]) + section(ts[j])
  {
    SectionsSnoc(section, head + ts[..j], ts[j]);
    assert head + ts[..j + 1] == (head + ts[..j]) + [ts[j]];
  }

  // ---------------------------------------------------------------------
  // Properties
  // ---------------------------------------------------------------------

  /** u occurs in a + u + b, hence so does whatever occurs in u. */
  lemma ContainsWithin(a: string, u: string, b: string, t: string)
    requires Contains(u, t)
    ensures Contains(a + u + b, t)
  {
    var i := ContainsWitness(u, t);
    assert (a + u + b)[|a| + i..|a| + i + |t|] == u[i..i + |t|];
    ContainsAt(a + u + b, t, |a| + i);
  }

  /** The text of every passage of a group occurs in its body, followed by a blank line. */
  lemma {:induction false} BodyHas(group: seq<TextChunk>, c: TextChunk)
    requires c in group
    ensures Contains(Body(group), c.text + "\n\n")
    decreases |group|
  {
    var init := group[..|group| - 1];
    if c == Last(group) {
      AppendAssoc(Body(init), c.text, "\n\n");
      ContainsMiddle(Body(init), c.text + "\n\n", "");
      assert Body(init) + (c.text + "\n\n") + "" == Body(group);
    } else {
      assert group == init + [Last(group)];
      BodyHas(init, c);
      ContainsWithin("", Body(init), Last(group).text + "\n\n", c.text + "\n\n");
      assert "" + Body(init) + (Last(group).text + "\n\n") == Body(group);
    }
  }

  /** The section of a listed type occurs in the sections written. */
  lemma {:induction false} SectionsHave(section: ContentType -> string, ts: seq<ContentType>, t: ContentType, s: string)
    requires t in ts && Contains(section(t), s)
    ensures Contains(Sections(section, ts), s)
    decreases |ts|
  {
    var init := ts[..|ts| - 1];
    if t == Last(ts) {
      ContainsWithin(Sections(section, init), section(t), "", s);
      assert Sections(section, init) + section(t) + "" == Sections(section, ts);
    } else {
      assert ts == init + [Last(ts)];
      SectionsHave(section, init, t, s);
      ContainsWithin("", Sections(section, init), section(Last(ts)), s);
      assert "" + Sections(section, init) + section(Last(ts)) == Sections(section, ts);
    }
  }

  /** Every passage of a type that gets a section appears in the context, followed by a blank line. */
  lemma KeptTextAppears(chunks: seq<TextChunk>, c: TextChunk)
    requires c in chunks && TypeOf(c) in SectionTypes
    ensures Contains(ContextText(chunks), c.text + "\n\n")
  {
    var t := TypeOf(c);
    OfTypeMembers(chunks, t);
    var g := OfType(chunks, t);
    BodyHas(g, c);
    ContainsWithin(Header(t), Body(g), "", c.text + "\n\n");
    assert Header(t) + Body(g) + "" == SectionOf(chunks)(t);
    SectionsHave(SectionOf(chunks), SectionTypes, t, c.text + "\n\n");
  }

  /** Concatenated sections are empty exactly when each of them is. */
  lemma {:induction false} SectionsEmpty(section: ContentType -> string, ts: seq<ContentType>)
    ensures Sections(section, ts) == "" <==> forall t :: t in ts ==> section(t) == ""
    decreases |ts|
  {
    if |ts| > 0 {
      var init := ts[..|ts| - 1];
      SectionsEmpty(section, init);
      assert ts == init + [Last(ts)];
    }
  }

  /** A section is empty exactly when no passage has its type. */
  lemma SectionEmpty(chunks: seq<TextChunk>, t: ContentType)
    ensures Section(chunks, t) == "" <==> forall c :: c in chunks ==> TypeOf(c) != t
  {
    OfTypeMembers(chunks, t);
    var g := OfType(chunks, t);
    assert |Header(t)| > 0;
    if g != [] {
      assert g[0] in g;
    }
  }

  /** Each listed section is empty exactly when no passage has its type. */
  lemma SectionsEmptyOf(chunks: seq<TextChunk>)
    ensures forall t :: t in SectionTypes ==> (SectionOf(chunks)(t) == "" <==> forall c :: c in chunks ==> TypeOf(c) != t)
  {
    forall t | t in SectionTypes ensures SectionOf(chunks)(t) == "" <==> forall c :: c in chunks ==> TypeOf(c) != t {
      SectionEmpty(chunks, t);
    }
  }

  /** Sections of two lists of types: those of the first, then those of the second. */
  lemma {:induction false} SectionsAppend(section: ContentType -> string, a: seq<ContentType>, b: seq<ContentType>)
    ensures Sections(section, a + b) == Sections(section, a) + Sections(section, b)
    decreases |b|
  {
    if |b| == 0 {
      assert a + b == a;
    } else {
      var init := b[..|b| - 1];
      SectionsAppend(section, a, init);
      assert (a + b)[..|a + b| - 1] == a + init;
      AppendAssoc(Sections(section, a), Sections(section, init), section(Last(b)));
    }
  }

  /** With a table among the passages the sections open with the Tables heading. */
  lemma TablesFirst(chunks: seq<TextChunk>)
    ensures (exists c :: c in chunks && TypeOf(c) == Table) ==> StartsWith(Sections(SectionOf(chunks), SectionTypes), Header(Table))
  {
    if c :| c in chunks && TypeOf(c) == Table {
      var section := SectionOf(chunks);
      var g := OfType(chunks, Table);
      OfTypeMembers(chunks, Table);
      assert g != [] by { assert c in g; }
      SectionsAppend(section, [Table], CodeTypes + [Text]);
      assert [Table] + (CodeTypes + [Text]) == SectionTypes;
      assert Sections(section, [Table]) == Header(Table) + Body(g) by {
        assert [Table][..0] == [];
      }
      var rest := Sections(section, CodeTypes + [Text]);
      AppendAssoc(Header(Table), Body(g), rest);
      assert (Header(Table) + (Body(g) + rest))[..|Header(Table)|] == Header(Table);
    }
  }

  /** Passages of the other types (lists, headings, formulas, XML, JSON, ...) change nothing. */
  lemma DroppedTypeIgnored(chunks: seq<TextChunk>, c: TextChunk)
    requires TypeOf(c) !in SectionTypes
    ensures ContextText(chunks + [c]) == ContextText(chunks)
  {
    assert (chunks + [c])[..|chunks|] == chunks;
    forall t | t in SectionTypes ensures OfType(chunks + [c], t) == OfType(chunks, t) {
    }
    SectionsAgree(SectionOf(chunks + [c]), SectionOf(chunks), SectionTypes);
  }

  /** Sections built from functions that agree on the listed types are equal. */
  lemma {:induction false} SectionsAgree(f: ContentType -> string, g: ContentType -> string, ts: seq<ContentType>)
    requires forall t :: t in ts ==> f(t) == g(t)
    ensures Sections(f, ts) == Sections(g, ts)
    decreases |ts|
  {
    if |ts| > 0 {
      SectionsAgree(f, g, ts[..|ts| - 1]);
    }
  }
}
