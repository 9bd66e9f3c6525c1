/**
 What the parser blames.  An error names what stands in the tokens and, where the source adds a
 context, the start of the collection that could not go on.
 */
module ParserErrors {
  import opened Wrappers
  import opened G = EventGrammar
  import opened ParserSpec
  import opened ParserMarks
  import C = ParserComplete

  // ---------- what directives are blamed for ----------

  predicate IsDirective(t: Token) { t.VersionT? || t.TagDirectiveT? }

  /** Token `i`, after directives only, is the one `e` is about: a second version, a wrong one, or a handle again. */
  ghost predicate Offends(version: bool, tags: seq<TagDirective>, ts: seq<Token>, i: nat, e: ParseError)
    requires i <= |ts|
  {
    match e
    case NoToken => i == |ts|
    case DuplicateVersion => i < |ts| && ts[i].VersionT? && (version || exists j :: 0 <= j < i && ts[j].VersionT?)
    case IncompatibleVersion => i < |ts| && ts[i].VersionT? && !(ts[i].major == 1 && ts[i].minor == 1)
    case DuplicateTagDirective =>
      i < |ts| && ts[i].TagDirectiveT? && NamedBefore(tags, ts, i, ts[i].directive.handle)
    case _ => false
  }

  ghost predicate NamedBefore(tags: seq<TagDirective>, ts: seq<Token>, i: nat, handle: string)
    requires i <= |ts|
  {
    || (exists j :: 0 <= j < |tags| && tags[j].handle == handle)
    || (exists j :: 0 <= j < i && ts[j].TagDirectiveT? && ts[j].directive.handle == handle)
  }

  ghost predicate Directives(ts: seq<Token>, i: nat)
    requires i <= |ts|
  {
    forall j :: 0 <= j < i ==> IsDirective(ts[j])
  }

  ghost predicate DirectivesBlamed(version: bool, tags: seq<TagDirective>, ts: seq<Token>, e: ParseError) {
    exists i :: 0 <= i <= |ts| && Directives(ts, i) && Offends(version, tags, ts, i, e)
  }

  lemma {:induction false} BlameShifts(version: bool, tags: seq<TagDirective>, ts: seq<Token>, e: ParseError,
                                       version': bool, tags': seq<TagDirective>)
    requires ts != [] && IsDirective(ts[0]) && DirectivesBlamed(version', tags', ts[1..], e)
    requires version' ==> version || ts[0].VersionT?
    requires tags' == if ts[0].TagDirectiveT? then tags + [ts[0].directive] else tags
    ensures DirectivesBlamed(version, tags, ts, e)
  {
    var i :| 0 <= i <= |ts[1..]| && Directives(ts[1..], i) && Offends(version', tags', ts[1..], i, e);
    forall j | 0 <= j < i + 1 ensures IsDirective(ts[j]) {
      assert j > 0 ==> IsDirective(ts[1..][j - 1]);
    }
    if e.DuplicateVersion? && !version' {
      var j :| 0 <= j < i && ts[1..][j].VersionT?;
      assert ts[j + 1].VersionT?;
    } else if e.DuplicateTagDirective? {
      NamedShifts(tags, ts, i, ts[i + 1].directive.handle, tags');
    }
    assert Offends(version, tags, ts, i + 1, e);
  }

  lemma {:induction false} NamedShifts(tags: seq<TagDirective>, ts: seq<Token>, i: nat, handle: string,
                                       tags': seq<TagDirective>)
    requires ts != [] && i < |ts| && NamedBefore(tags', ts[1..], i, handle)
    requires tags' == if ts[0].TagDirectiveT? then tags + [ts[0].directive] else tags
    ensures NamedBefore(tags, ts, i + 1, handle)
  {
    if j :| 0 <= j < |tags'| && tags'[j].handle == handle {
      assert j < |tags| ==> tags[j].handle == handle;
    } else {
      var j :| 0 <= j < i && ts[1..][j].TagDirectiveT? && ts[1..][j].directive.handle == handle;
      assert ts[j + 1].directive.handle == handle;
    }
  }

  /** What is processed is directives, and the first offence ends it. */
  ghost predicate Processed(p: PState, r: Result<ParserSpec.Directives, ParseError>, version: bool) {
    match r
    case Err(e) => DirectivesBlamed(version, p.tags, p.tokens, e)
    case Ok(d) =>
      && d.rest == p.(tokens := d.rest.tokens, tags := d.rest.tags)
      && exists i :: 0 <= i < |p.tokens| && Directives(p.tokens, i) && !IsDirective(p.tokens[i])
                     && d.rest.tokens == p.tokens[i..]
  }

  lemma {:induction false} DirectivesProcessed(p: PState, version: bool, tags: seq<TagDirective>)
    ensures Processed(p, ProcessDirectives(p, version, tags), version)
    decreases |p.tokens|
  {
    if p.tokens == [] {
      assert Offends(version, p.tags, p.tokens, 0, NoToken);
    } else {
      match p.tokens[0]
      case VersionT(major, minor) =>
        if version {
          assert Offends(version, p.tags, p.tokens, 0, DuplicateVersion);
        } else if major != 1 || minor != 1 {
          assert Offends(version, p.tags, p.tokens, 0, IncompatibleVersion);
        } else {
          DirectivesProcessed(Skip(p), true, tags);
          ProcessedNext(p, Skip(p), ProcessDirectives(Skip(p), true, tags), version, true);
        }
      case TagDirectiveT(d) =>
        match AppendTag(p.tags, d, false) {
          case Err(e) => assert Offends(version, p.tags, p.tokens, 0, DuplicateTagDirective);
          case Ok(all) =>
            var q := Skip(p.(tags := all));
            DirectivesProcessed(q, version, tags + [d]);
            ProcessedNext(p, q, ProcessDirectives(q, version, tags + [d]), version, version);
        }
      case _ => assert p.tokens == p.tokens[0..];
    }
  }

  lemma {:induction false} ProcessedNext(p: PState, q: PState, r: Result<ParserSpec.Directives, ParseError>,
                                         version: bool, version': bool)
    requires p.tokens != [] && IsDirective(p.tokens[0]) && q == Skip(p).(tags := q.tags)
    requires q.tags == if p.tokens[0].TagDirectiveT? then p.tags + [p.tokens[0].directive] else p.tags
    requires version' ==> version || p.tokens[0].VersionT?
    requires Processed(q, r, version')
    ensures Processed(p, r, version)
  {
    match r {
      case Err(e) => BlameShifts(version, p.tags, p.tokens, e, version', q.tags);
      case Ok(d) =>
        var i :| 0 <= i < |q.tokens| && Directives(q.tokens, i) && !IsDirective(q.tokens[i])
                 && d.rest.tokens == q.tokens[i..];
        forall j | 0 <= j < i + 1 ensures IsDirective(p.tokens[j]) {
          assert j > 0 ==> IsDirective(q.tokens[j - 1]);
        }
        assert p.tokens[i + 1..] == q.tokens[i..];
    }
  }

  /** DOCUMENT-END tokens in front of a document are skipped, all of them. */
  lemma {:induction false} EndsSkipped(p: PState) returns (k: nat)
    ensures k <= |p.tokens| && SkipDocumentEnds(p) == p.(tokens := p.tokens[k..])
    ensures forall j :: 0 <= j < k ==> p.tokens[j].DocumentEndT?
    ensures k < |p.tokens| ==> !p.tokens[k].DocumentEndT?
    decreases |p.tokens|
  {
    if p.tokens != [] && p.tokens[0].DocumentEndT? {
      var n := EndsSkipped(Skip(p));
      k := n + 1;
      assert p.tokens[k..] == Skip(p).tokens[n..];
      forall j | 0 <= j < k ensures p.tokens[j].DocumentEndT? {
        assert j > 0 ==> Skip(p).tokens[j - 1].DocumentEndT?;
      }
    } else {
      k := 0;
      assert p.tokens[0..] == p.tokens;
    }
  }

  // ---------- what a document start is blamed for ----------

  /** Besides its directives, only the DOCUMENT-START that does not follow them. */
  ghost predicate DocumentBlamed(ts: seq<Token>, e: ParseError) {
    || DirectivesBlamed(false, [], ts, e)
    || (e.ExpectedDocumentStart?
        && exists i :: 0 <= i < |ts| && Directives(ts, i) && !IsDirective(ts[i]) && !ts[i].DocumentStartT?
                       && (i == 0 ==> !ts[0].StreamEndT?))
  }

  ghost predicate PrologueBlamed(p: PState, implicit: bool, e: ParseError) {
    exists k :: 0 <= k <= |p.tokens| && (implicit ==> k == 0) && DocumentEnds(p.tokens, k)
                && DocumentBlamed(p.tokens[k..], e)
  }

  ghost predicate DocumentEnds(ts: seq<Token>, k: nat)
    requires k <= |ts|
  {
    forall j :: 0 <= j < k ==> ts[j].DocumentEndT?
  }

  /** A document start whose DOCUMENT-END tokens have been skipped. */
  lemma {:induction false} StartBlame(p: PState, implicit: bool)
    requires p.tags == [] && (implicit || p.tokens == [] || !p.tokens[0].DocumentEndT?)
    ensures ParseDocumentStart(p, implicit).Fail? ==> DocumentBlamed(p.tokens, ParseDocumentStart(p, implicit).error)
  {
    DirectivesProcessed(p, false, []);
    if p.tokens == [] {
      assert Offends(false, [], p.tokens, 0, NoToken);
    } else if ProcessDirectives(p, false, []).Ok? {
      var d := ProcessDirectives(p, false, []).value;
      var i :| 0 <= i < |p.tokens| && Directives(p.tokens, i) && !IsDirective(p.tokens[i])
               && d.rest.tokens == p.tokens[i..];
      assert d.rest.tokens[0] == p.tokens[i];
    }
  }

  lemma {:induction false} DocumentStartBlame(p: PState, implicit: bool)
    requires p.tags == []
    ensures ParseDocumentStart(p, implicit).Fail? ==>
              PrologueBlamed(p, implicit, ParseDocumentStart(p, implicit).error)
  {
    assert p.tokens[0..] == p.tokens;
    if implicit {
      StartBlame(p, true);
      assert DocumentEnds(p.tokens, 0);
    } else {
      var k := EndsSkipped(p);
      var q := SkipDocumentEnds(p);
      StartBlame(q, false);
      assert SkipDocumentEnds(q) == q;
      assert ParseDocumentStart(p, false) == ParseDocumentStart(q, false);
      assert DocumentEnds(p.tokens, k);
    }
  }

  // ---------- what a node is blamed for ----------

  predicate IsProperty(t: Token) { t.AnchorT? || t.TagT? }

  /** At most one anchor and one tag. */
  ghost predicate Properties(ts: seq<Token>, i: nat)
    requires i <= |ts|
  {
    i <= 2 && (forall j :: 0 <= j < i ==> IsProperty(ts[j])) && (i == 2 ==> ts[0].AnchorT? != ts[1].AnchorT?)
  }

  /** Tokens with which the content of a node may start. */
  predicate StartsContent(t: Token, block: bool, indentless: bool) {
    || t.ScalarT? || t.FlowSequenceStartT? || t.FlowMappingStartT?
    || (block && (t.BlockSequenceStartT? || t.BlockMappingStartT?))
    || (indentless && t.BlockEntryT?)
  }

  /** A handle that stands for nothing, or a token that starts no node and follows no anchor or tag. */
  ghost predicate NodeOffends(tags: seq<TagDirective>, ts: seq<Token>, i: nat, block: bool, indentless: bool,
                              e: ParseError)
    requires i <= |ts|
  {
    match e
    case NoToken => i == |ts|
    case UndefinedTagHandle =>
      exists j :: 0 <= j < i && ts[j].TagT? && !C.TagStands(tags, Some(Tag(ts[j].handle, ts[j].suffix)))
    case ExpectedNodeContent =>
      && i < |ts| && !StartsContent(ts[i], block, indentless) && (i == 0 ==> !ts[0].AliasT?)
      && forall j :: 0 <= j < i ==> ts[j] == AnchorT("") || ts[j] == TagT("", "")
    case _ => false
  }

  ghost predicate NodeBlamed(tags: seq<TagDirective>, ts: seq<Token>, block: bool, indentless: bool, e: ParseError) {
    exists i :: 0 <= i <= |ts| && Properties(ts, i) && NodeOffends(tags, ts, i, block, indentless, e)
  }

  /** The first `i` tokens are the properties read. */
  ghost predicate Reads(p: PState, r: ParserSpec.Properties, i: nat)
    requires i <= |p.tokens|
  {
    && Properties(p.tokens, i) && r.rest == p.(tokens := p.tokens[i..])
    && (forall j :: 0 <= j < i && p.tokens[j].AnchorT? ==> r.anchor == Some(p.tokens[j].name))
    && (forall j :: 0 <= j < i && p.tokens[j].TagT? ==> r.tag == Some(Tag(p.tokens[j].handle, p.tokens[j].suffix)))
    && (r.tag.Some? ==> exists j :: 0 <= j < i && p.tokens[j].TagT?)
  }

  lemma {:induction false} PropertiesRead(p: PState)
    requires p.tokens != []
    ensures match ParseProperties(p)
            case None => Properties(p.tokens, |p.tokens|)
            case Some(r) =>
              exists i :: 0 <= i < |p.tokens| && Reads(p, r, i)
  {
    var ts := p.tokens;
    assert ts == ts[0..];
    if IsProperty(ts[0]) && |ts| > 1 {
      assert ts[1..] == Skip(p).tokens;
      if IsProperty(ts[1]) && ts[0].AnchorT? != ts[1].AnchorT? {
        if |ts| > 2 {
          assert ts[2..] == Skip(Skip(p)).tokens;
          assert Reads(p, ParseProperties(p).value, 2);
        }
      } else {
        assert Reads(p, ParseProperties(p).value, 1);
      }
    } else if !IsProperty(ts[0]) {
      assert Reads(p, ParseProperties(p).value, 0);
    }
  }

  lemma {:induction false} NodeBlame(p: PState, block: bool, indentless: bool)
    ensures ParseNode(p, block, indentless).Fail? ==>
              NodeBlamed(p.tags, p.tokens, block, indentless, ParseNode(p, block, indentless).error)
  {
    if p.tokens == [] {
      assert Properties(p.tokens, 0) && NodeOffends(p.tags, p.tokens, 0, block, indentless, NoToken);
    } else if !p.tokens[0].AliasT? {
      PropertiesRead(p);
      match ParseProperties(p) {
        case None => assert NodeOffends(p.tags, p.tokens, |p.tokens|, block, indentless, NoToken);
        case Some(r) =>
          var i :| 0 <= i < |p.tokens| && Reads(p, r, i);
          ContentBlame(p, r, i, block, indentless);
      }
    }
  }

  lemma {:induction false} ContentBlame(p: PState, r: ParserSpec.Properties, i: nat, block: bool, indentless: bool)
    requires i < |p.tokens| && Reads(p, r, i) && (i == 0 ==> !p.tokens[0].AliasT?)
    ensures match ResolveTag(p.tags, r.tag)
            case None => NodeBlamed(p.tags, p.tokens, block, indentless, UndefinedTagHandle)
            case Some(tag) =>
              var o := ParseContent(r.rest, block, indentless, r.anchor, tag);
              o.Fail? ==> NodeBlamed(p.tags, p.tokens, block, indentless, o.error)
  {
    var ts := p.tokens;
    Resolved(p.tags, r.tag);
    if ResolveTag(p.tags, r.tag).None? {
      assert NodeOffends(p.tags, ts, i, block, indentless, UndefinedTagHandle);
    } else {
      var tag := ResolveTag(p.tags, r.tag).value;
      if ParseContent(r.rest, block, indentless, r.anchor, tag).Fail? {
        assert r.rest.tokens[0] == ts[i];
        assert NodeOffends(p.tags, ts, i, block, indentless, ExpectedNodeContent);
      }
    }
  }

  lemma {:induction false} Resolved(tags: seq<TagDirective>, tag: Option<Tag>)
    ensures ResolveTag(tags, tag).None? <==> !C.TagStands(tags, tag)
    ensures ResolveTag(tags, tag) == Some("") ==> tag.None? || tag == Some(Tag("", ""))
  {
    C.Resolves(tags, C.Props(None, tag, false));
  }

  // ---------- what a collection is blamed for ----------

  predicate IsPunctuation(t: Token) { t.BlockEntryT? || t.FlowEntryT? || t.KeyT? || t.ValueT? }

  /** A node that begins after `d` tokens of punctuation. */
  ghost predicate NodeAfter(p: PState, d: nat, block: bool, indentless: bool, e: ParseError) {
    && d <= |p.tokens| && (forall j :: 0 <= j < d ==> IsPunctuation(p.tokens[j]))
    && NodeBlamed(p.tags, p.tokens[d..], block, indentless, e)
  }

  ghost predicate SomeNodeBlamed(p: PState, block: bool, indentless: bool, e: ParseError) {
    exists d :: 0 <= d <= 2 && NodeAfter(p, d, block, indentless, e)
  }

  ghost predicate Last(p: PState, m: Mark) { p.marks != [] && p.marks[|p.marks| - 1] == m }

  /** Inside the collection that starts with `start`: neither its next part nor its end is there. */
  ghost predicate Blamed(p: PState, start: Token, e: ParseError) {
    match e
    case NoToken => StreamEndT !in p.tokens
    case UndefinedTagHandle => SomeNodeBlamed(p, MayBlock(start), MayIndentless(start), e)
    case ExpectedNodeContent => SomeNodeBlamed(p, MayBlock(start), MayIndentless(start), e)
    case ExpectedEntry(m) =>
      start == BlockSequenceStartT && Last(p, m) && p.tokens != []
      && !p.tokens[0].BlockEntryT? && !p.tokens[0].BlockEndT?
    case ExpectedKey(m) =>
      start == BlockMappingStartT && Last(p, m) && p.tokens != [] && !p.tokens[0].KeyT? && !p.tokens[0].BlockEndT?
    case ExpectedCommaOrBracket(m) =>
      start == FlowSequenceStartT && Last(p, m) && p.tokens != []
      && !p.tokens[0].FlowEntryT? && !p.tokens[0].FlowSequenceEndT?
    case ExpectedCommaOrBrace(m) =>
      start == FlowMappingStartT && Last(p, m) && p.tokens != []
      && !p.tokens[0].FlowEntryT? && !p.tokens[0].FlowMappingEndT?
    case _ => false
  }

  /** Block collections may stand in block collections; sequences without indentation only in block mappings. */
  predicate MayBlock(start: Token) { !start.FlowSequenceStartT? && !start.FlowMappingStartT? }

  predicate MayIndentless(start: Token) { start.BlockMappingStartT? }

  ghost predicate Blames(p: PState, start: Token, o: Outcome) { o.Fail? ==> Blamed(p, start, o.error) }

  lemma {:induction false} NoStreamEnd(p: PState, d: nat, block: bool, indentless: bool)
    requires NodeAfter(p, d, block, indentless, NoToken)
    ensures StreamEndT !in p.tokens
  {
    var ts := p.tokens[d..];
    var i :| 0 <= i <= |ts| && Properties(ts, i) && NodeOffends(p.tags, ts, i, block, indentless, NoToken);
    forall j | 0 <= j < |p.tokens| ensures p.tokens[j] != StreamEndT {
      if j >= d {
        assert IsProperty(ts[j - d]);
      }
    }
  }

  /** A node after `d` tokens of punctuation, parsed in a collection. */
  lemma {:induction false} MemberBlame(p: PState, d: nat, q: PState, start: Token)
    requires d <= 2 && d <= |p.tokens| && (forall j :: 0 <= j < d ==> IsPunctuation(p.tokens[j]))
    requires q.tokens == p.tokens[d..] && q.tags == p.tags
    ensures Blames(p, start, ParseNode(q, MayBlock(start), MayIndentless(start)))
  {
    var block, indentless := MayBlock(start), MayIndentless(start);
    var o := ParseNode(q, block, indentless);
    NodeBlame(q, block, indentless);
    if o.Fail? {
      assert NodeAfter(p, d, block, indentless, o.error);
      if o.error.NoToken? {
        NoStreamEnd(p, d, block, indentless);
      }
    }
  }

  lemma {:induction false} PartBlame(p: PState, s: State, start: Token)
    requires p.tokens != [] && IsPunctuation(p.tokens[0])
    ensures Blames(p, start, ParseNode(Push(Skip(p), s), MayBlock(start), MayIndentless(start)))
    ensures Skip(p).tokens == [] ==> Blames(p, start, Fail(NoToken))
  {
    MemberBlame(p, 1, Push(Skip(p), s), start);
  }

  lemma {:induction false} WholeBlame(p: PState, s: State, start: Token)
    ensures Blames(p, start, ParseNode(Push(p, s), MayBlock(start), MayIndentless(start)))
  {
    assert p.tokens[0..] == p.tokens;
    MemberBlame(p, 0, Push(p, s), start);
  }

  lemma {:induction false} BlockSequenceBlame(p: PState)
    ensures Blames(p, BlockSequenceStartT, ParseBlockSequenceEntry(p))
  {
    if p.tokens != [] && p.tokens[0].BlockEntryT? {
      PartBlame(p, SBlockSequenceEntry, BlockSequenceStartT);
    }
  }

  /** A sequence without indentation has no end token to wait for. */
  lemma {:induction false} IndentlessBlame(p: PState)
    ensures Blames(p, BlockSequenceStartT, ParseIndentlessSequenceEntry(p))
    ensures ParseIndentlessSequenceEntry(p).Fail? ==> !ParseIndentlessSequenceEntry(p).error.ExpectedEntry?
  {
    if p.tokens != [] && p.tokens[0].BlockEntryT? {
      PartBlame(p, SIndentlessSequenceEntry, BlockSequenceStartT);
      NodeBlame(Push(Skip(p), SIndentlessSequenceEntry), true, false);
    }
  }

  lemma {:induction false} BlockKeyBlame(p: PState)
    ensures Blames(p, BlockMappingStartT, ParseBlockMappingKey(p))
  {
    if p.tokens != [] && p.tokens[0].KeyT? {
      PartBlame(p, SBlockMappingValue, BlockMappingStartT);
    }
  }

  lemma {:induction false} BlockValueBlame(p: PState)
    ensures Blames(p, BlockMappingStartT, ParseBlockMappingValue(p))
  {
    if p.tokens != [] && p.tokens[0].ValueT? {
      PartBlame(p, SBlockMappingKey, BlockMappingStartT);
    }
  }

  lemma {:induction false} FlowSequenceBlame(p: PState, first: bool)
    ensures Blames(p, FlowSequenceStartT, ParseFlowSequenceEntry(p, first))
  {
    WholeBlame(p, SFlowSequenceEntry, FlowSequenceStartT);
    if p.tokens != [] && p.tokens[0].FlowEntryT? {
      PartBlame(p, SFlowSequenceEntry, FlowSequenceStartT);
    }
  }

  lemma {:induction false} PairKeyBlame(p: PState)
    ensures Blames(p, FlowSequenceStartT, ParseFlowSequenceEntryMappingKey(p))
  {
    WholeBlame(p, SFlowSequenceEntryMappingValue, FlowSequenceStartT);
  }

  lemma {:induction false} PairValueBlame(p: PState)
    ensures Blames(p, FlowSequenceStartT, ParseFlowSequenceEntryMappingValue(p))
  {
    if p.tokens != [] && p.tokens[0].ValueT? {
      PartBlame(p, SFlowSequenceEntryMappingEnd, FlowSequenceStartT);
    }
  }

  lemma {:induction false} FlowItemBlame(p: PState, d: nat, q: PState)
    requires d <= 1 && d < |p.tokens| && (d == 1 ==> p.tokens[0].FlowEntryT?) && q == p.(tokens := p.tokens[d..])
    ensures Blames(p, FlowMappingStartT, ParseFlowMappingItem(q))
  {
    if q.tokens[0].KeyT? {
      assert Skip(q).tokens == p.tokens[d + 1..];
      MemberBlame(p, d + 1, Push(Skip(q), SFlowMappingValue), FlowMappingStartT);
      if Skip(q).tokens == [] {
        assert forall j :: 0 <= j < |p.tokens| ==> IsPunctuation(p.tokens[j]);
      }
    } else {
      MemberBlame(p, d, Push(q, SFlowMappingEmptyValue), FlowMappingStartT);
    }
  }

  lemma {:induction false} FlowMappingBlame(p: PState, first: bool)
    ensures Blames(p, FlowMappingStartT, ParseFlowMappingKey(p, first))
  {
    if p.tokens != [] {
      assert p.tokens[0..] == p.tokens;
      FlowItemBlame(p, 0, p);
      if p.tokens[0].FlowEntryT? && |p.tokens| > 1 {
        FlowItemBlame(p, 1, Skip(p));
      }
    }
  }

  lemma {:induction false} FlowValueBlame(p: PState, empty: bool)
    ensures Blames(p, FlowMappingStartT, ParseFlowMappingValue(p, empty))
  {
    if p.tokens != [] && p.tokens[0].ValueT? {
      PartBlame(p, SFlowMappingKey, FlowMappingStartT);
    }
  }

  // ---------- one step ----------

  /** The collection the state is in or about to enter. */
  function Around(s: State): Token {
    if IsFirst(s) then StartOf(s)
    else if Own(s) != [] then Own(s)[0]
    else BlockSequenceStartT
  }

  predicate InCollection(s: State) { IsFirst(s) || Own(s) != [] || s.SIndentlessSequenceEntry? }

  /** What an error says of the tokens at the place where the parser stands. */
  ghost predicate Blame(p: PState, e: ParseError) {
    if p.state.SStreamStart? then
      if e.NoToken? then p.tokens == [] else e.ExpectedStreamStart? && p.tokens != [] && !p.tokens[0].StreamStartT?
    else if BeforeDocument(p.state) then PrologueBlamed(p, p.state.SImplicitDocumentStart?, e)
    else if InCollection(p.state) then Blamed(Inside(p), Around(p.state), e)
    else if e.NoToken? then StreamEndT !in p.tokens
    else SomeNodeBlamed(p, true, false, e)
  }

  lemma {:induction false} RootBlame(p: PState)
    ensures ParseNode(p, true, false).Fail? ==>
              var e := ParseNode(p, true, false).error;
              if e.NoToken? then StreamEndT !in p.tokens else SomeNodeBlamed(p, true, false, e)
  {
    assert p.tokens[0..] == p.tokens;
    NodeBlame(p, true, false);
    if ParseNode(p, true, false).Fail? {
      assert NodeAfter(p, 0, true, false, ParseNode(p, true, false).error);
      if ParseNode(p, true, false).error.NoToken? {
        NoStreamEnd(p, 0, true, false);
      }
    }
  }

  lemma {:induction false} CollectionBlame(p: PState)
    requires InCollection(p.state) && !IsFirst(p.state)
    ensures Blames(p, Around(p.state), Step(p))
  {
    match p.state {
      case SBlockSequenceEntry => BlockSequenceBlame(p);
      case SIndentlessSequenceEntry => IndentlessBlame(p);
      case SBlockMappingKey => BlockKeyBlame(p);
      case SBlockMappingValue => BlockValueBlame(p);
      case SFlowSequenceEntry => FlowSequenceBlame(p, false);
      case SFlowSequenceEntryMappingKey => PairKeyBlame(p);
      case SFlowSequenceEntryMappingValue => PairValueBlame(p);
      case SFlowSequenceEntryMappingEnd =>
      case SFlowMappingKey => FlowMappingBlame(p, false);
      case SFlowMappingValue => FlowValueBlame(p, false);
      case SFlowMappingEmptyValue => FlowValueBlame(p, true);
    }
  }

  lemma {:induction false} FirstBlame(p: PState)
    requires IsFirst(p.state) && p.tokens != []
    ensures Blames(Inside(p), Around(p.state), Step(p))
  {
    var q := Inside(p);
    match p.state {
      case SBlockSequenceFirstEntry => BlockSequenceBlame(q);
      case SBlockMappingFirstKey => BlockKeyBlame(q);
      case SFlowSequenceFirstEntry => FlowSequenceBlame(q, true);
      case SFlowMappingFirstKey => FlowMappingBlame(q, true);
    }
  }

  /** Every failing step blames what is there. */
  lemma {:induction false} StepBlames(p: PState)
    requires p.state != SEnd && (BeforeDocument(p.state) ==> p.tags == [])
    ensures Step(p).Fail? ==> Blame(p, Step(p).error)
  {
    if BeforeDocument(p.state) {
      if !p.state.SStreamStart? {
        DocumentStartBlame(p, p.state.SImplicitDocumentStart?);
      }
    } else if InCollection(p.state) {
      if !IsFirst(p.state) {
        CollectionBlame(p);
      } else if p.tokens != [] {
        FirstBlame(p);
      }
    } else {
      RootBlame(p);
    }
  }

  // ---------- main results ----------

  /** The start token of the innermost open collection that keeps a mark is `start`, and mark `m` names it. */
  ghost predicate Innermost(all: seq<Token>, p: PState, m: Mark, start: Token) {
    && Names(all, |Inside(p).tokens|, m, start)
    && forall i :: 0 <= i < |p.marks| && p.marks[i] != m ==> p.marks[i] > m
  }

  /**
   At every state a run can reach the marks name, in order, the start tokens of the open
   collections; a failing step blames what is there; and a context names the collection that
   could not go on, the innermost one.
   */
  lemma {:induction false} ParserBlames(all: seq<Token>, events: seq<Event>, q: PState)
    requires Reaches(Initial(all), events, q)
    ensures Marked(all, q)
    ensures q.state != SEnd && Step(q).Fail? ==>
              var e := Step(q).error;
              && Blame(q, e)
              && (e.ExpectedEntry? ==> Innermost(all, q, e.context, BlockSequenceStartT))
              && (e.ExpectedKey? ==> Innermost(all, q, e.context, BlockMappingStartT))
              && (e.ExpectedCommaOrBracket? ==> Innermost(all, q, e.context, FlowSequenceStartT))
              && (e.ExpectedCommaOrBrace? ==> Innermost(all, q, e.context, FlowMappingStartT))
  {
    assert all[0..] == all;
    RunMarks(all, Initial(all), events, q);
    if q.state != SEnd && Step(q).Fail? {
      StepBlames(q);
      var e := Step(q).error;
      if e.ExpectedEntry? || e.ExpectedKey? || e.ExpectedCommaOrBracket? || e.ExpectedCommaOrBrace? {
        ContextNamed(all, q, e);
      }
    }
  }

  lemma {:induction false} ContextNamed(all: seq<Token>, p: PState, e: ParseError)
    requires Marked(all, p) && p.state != SEnd && Step(p) == Fail(e) && Blame(p, e)
    requires e.ExpectedEntry? || e.ExpectedKey? || e.ExpectedCommaOrBracket? || e.ExpectedCommaOrBrace?
    ensures Innermost(all, p, e.context, Around(p.state))
    ensures Blamed(Inside(p), Around(p.state), e)
  {
    ContextKinds(p, e);
    NotIndentless(p, e);
    CollectionNamed(all, p, e);
  }

  lemma {:induction false} NotIndentless(p: PState, e: ParseError)
    requires p.state != SEnd && Step(p) == Fail(e)
    requires e.ExpectedEntry? || e.ExpectedKey? || e.ExpectedCommaOrBracket? || e.ExpectedCommaOrBrace?
    ensures !p.state.SIndentlessSequenceEntry?
  {
    if p.state.SIndentlessSequenceEntry? {
      IndentlessBlame(p);
    }
  }

  lemma {:induction false} CollectionNamed(all: seq<Token>, p: PState, e: ParseError)
    requires Marked(all, p) && InCollection(p.state) && !p.state.SIndentlessSequenceEntry?
    requires Blamed(Inside(p), Around(p.state), e)
    requires e.ExpectedEntry? || e.ExpectedKey? || e.ExpectedCommaOrBracket? || e.ExpectedCommaOrBrace?
    ensures Innermost(all, p, e.context, Around(p.state))
  {
    if IsFirst(p.state) {
      EnterWithin(all, p);
      InnermostNamed(all, Inside(p), StartOf(p.state));
    } else {
      InnermostNamed(all, p, Own(p.state)[0]);
    }
  }

  /** Only collections are blamed in a context. */
  lemma {:induction false} ContextKinds(p: PState, e: ParseError)
    requires Blame(p, e)
    requires e.ExpectedEntry? || e.ExpectedKey? || e.ExpectedCommaOrBracket? || e.ExpectedCommaOrBrace?
    ensures InCollection(p.state)
  {
    if BeforeDocument(p.state) && !p.state.SStreamStart? {
      PrologueKinds(p, p.state.SImplicitDocumentStart?, e);
    }
  }

  lemma {:induction false} PrologueKinds(p: PState, implicit: bool, e: ParseError)
    requires PrologueBlamed(p, implicit, e)
    ensures e.NoToken? || e.DuplicateVersion? || e.IncompatibleVersion? || e.DuplicateTagDirective?
            || e.ExpectedDocumentStart?
  {
  }

  lemma {:induction false} InnermostNamed(all: seq<Token>, p: PState, start: Token)
    requires Within(all, p, [start])
    ensures p.marks != []
    ensures var m := p.marks[|p.marks| - 1];
            Names(all, |p.tokens|, m, start)
            && forall i :: 0 <= i < |p.marks| && p.marks[i] != m ==> p.marks[i] > m
  {
    var ks := Openers(p.states) + [start];
    assert ks[|ks| - 1] == start;
  }

  /** Tokens that end in STREAM-END never run out before the parser has returned the stream's end. */
  lemma {:induction false} TokensSuffice(all: seq<Token>, events: seq<Event>, q: PState)
    requires all != [] && all[|all| - 1] == StreamEndT && Reaches(Initial(all), events, q) && q.state != SEnd
    ensures q.tokens != [] && q.tokens[|q.tokens| - 1] == StreamEndT && Step(q) != Fail(NoToken)
  {
    ParserBlames(all, events, q);
    if Step(q) == Fail(NoToken) {
      Starved(q);
    }
  }

  lemma {:induction false} PrologueStarves(p: PState, implicit: bool)
    requires p.tokens != [] && PrologueBlamed(p, implicit, NoToken)
    ensures p.tokens[|p.tokens| - 1] != StreamEndT
  {
    var k :| 0 <= k <= |p.tokens| && (implicit ==> k == 0) && DocumentEnds(p.tokens, k)
             && DocumentBlamed(p.tokens[k..], NoToken);
    var ts := p.tokens[k..];
    var i :| 0 <= i <= |ts| && Directives(ts, i) && Offends(false, [], ts, i, NoToken);
    assert k < |p.tokens| ==> IsDirective(ts[|ts| - 1]);
  }

  lemma {:induction false} Starved(p: PState)
    requires p.tokens != [] && Blame(p, NoToken)
    requires IsFirst(p.state) ==> p.tokens[0] == StartOf(p.state)
    ensures p.tokens[|p.tokens| - 1] != StreamEndT
  {
    if BeforeDocument(p.state) {
      PrologueStarves(p, p.state.SImplicitDocumentStart?);
    } else if IsFirst(p.state) {
      assert |p.tokens| > 1 ==> p.tokens[|p.tokens| - 1] == Inside(p).tokens[|p.tokens| - 2];
    }
  }
}
