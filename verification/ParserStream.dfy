/**
 Completeness of the parser for whole streams: on the tokens of a stream the grammar derives,
 the parser returns the events of that stream if and only if its directives agree with each
 other and `Exact` holds of every root.
 */
module ParserStream {
  import opened Wrappers
  import opened G = EventGrammar
  import opened ParserSpec
  import opened ParserComplete

  // ---------- documents and streams ----------

  datatype Directive = VersionDirective(major: int, minor: int) | TagNaming(directive: TagDirective)

  /** `ends` counts the DOCUMENT-END tokens after the document. */
  datatype SourceDocument = SourceDocument(explicit: bool, directives: seq<Directive>, root: Tree, ends: nat)

  function DirectiveToken(d: Directive): Token {
    match d
    case VersionDirective(major, minor) => VersionT(major, minor)
    case TagNaming(directive) => TagDirectiveT(directive)
  }

  function DirectiveTokens(ds: seq<Directive>, k: seq<Token>): seq<Token> {
    if ds == [] then k
    else [DirectiveToken(ds[0])] + DirectiveTokens(ds[1..], k)
  }

  function EndTokens(n: nat, k: seq<Token>): seq<Token> {
    if n == 0 then k else [DocumentEndT] + EndTokens(n - 1, k)
  }

  function DocumentTokens(d: SourceDocument, k: seq<Token>): seq<Token> {
    var body := Tokens(d.root, EndTokens(d.ends, k));
    if d.explicit then DirectiveTokens(d.directives, [DocumentStartT] + body) else body
  }

  function DocumentsTokens(docs: seq<SourceDocument>, k: seq<Token>): seq<Token> {
    if docs == [] then k else DocumentTokens(docs[0], DocumentsTokens(docs[1..], k))
  }

  function StreamTokens(docs: seq<SourceDocument>, k: seq<Token>): seq<Token> {
    [StreamStartT] + DocumentsTokens(docs, [StreamEndT] + k)
  }

  function DirectiveTags(ds: seq<Directive>): seq<TagDirective> {
    if ds == [] then []
    else (if ds[0].TagNaming? then [ds[0].directive] else []) + DirectiveTags(ds[1..])
  }

  predicate HasVersion(ds: seq<Directive>) {
    ds != [] && (ds[0].VersionDirective? || HasVersion(ds[1..]))
  }

  ghost function DocumentEvents(d: SourceDocument, k: seq<Event>): seq<Event> {
    var tags := DirectiveTags(d.directives);
    [DocumentStart(HasVersion(d.directives), tags, false)]
    + Events(d.root, WithDefaults(tags), [DocumentEnd(d.ends == 0)] + k)
  }

  ghost function DocumentsEvents(docs: seq<SourceDocument>, k: seq<Event>): seq<Event> {
    if docs == [] then k else DocumentEvents(docs[0], DocumentsEvents(docs[1..], k))
  }

  ghost function StreamEvents(docs: seq<SourceDocument>): seq<Event> {
    [StreamStart] + DocumentsEvents(docs, [StreamEnd])
  }

  // ---------- which documents are derivations, and which are read as they are meant ----------

  ghost predicate DocumentDerives(d: SourceDocument) {
    DerivesOptional(d.root, InSequence) && (!d.explicit ==> d.directives == [] && !d.root.Omitted?)
  }

  /** Only the first document may do without its DOCUMENT-START. */
  ghost predicate StreamDerives(docs: seq<SourceDocument>) {
    forall i :: 0 <= i < |docs| ==> DocumentDerives(docs[i]) && (i > 0 ==> docs[i].explicit)
  }

  /** At most one version, which is 1.1, and no tag handle named twice. */
  ghost predicate DirectivesExact(ds: seq<Directive>, version: bool, tags: seq<TagDirective>)
    decreases ds
  {
    ds == [] ||
    (match ds[0]
     case VersionDirective(major, minor) => !version && major == minor == 1 && DirectivesExact(ds[1..], true, tags)
     case TagNaming(d) => !HandleDefined(tags, d.handle) && DirectivesExact(ds[1..], version, tags + [d]))
  }

  ghost predicate DocumentExact(d: SourceDocument) {
    DirectivesExact(d.directives, false, []) && Exact(d.root, WithDefaults(DirectiveTags(d.directives)))
  }

  ghost predicate StreamExact(docs: seq<SourceDocument>)
    decreases docs
  {
    docs == [] || (DocumentExact(docs[0]) && StreamExact(docs[1..]))
  }

  // ---------- directives ----------

  ghost predicate IsNamed(tags: seq<TagDirective>, handle: string) {
    exists i :: 0 <= i < |tags| && tags[i].handle == handle
  }

  /** `handle` stands for `prefix`. */
  ghost predicate StandsFor(tags: seq<TagDirective>, handle: string, prefix: string) {
    exists i :: FirstNaming(tags, handle, i) && tags[i].prefix == prefix
  }

  /**
   In a document a handle stands for the prefix its directives give it; and where they do not,
   `!` for itself and `!!` for the prefix of the standard tags.
   */
  lemma {:induction false} DefaultsStand(tags: seq<TagDirective>, handle: string, prefix: string)
    ensures StandsFor(WithDefaults(tags), handle, prefix)
            <==> if IsNamed(tags, handle) then StandsFor(tags, handle, prefix)
                 else (handle == "!" && prefix == "!") || (handle == "!!" && prefix == "tag:yaml.org,2002:")
  {
    var one := WithDefault(tags, TagDirective("!", "!"));
    DefaultStands(tags, TagDirective("!", "!"), handle, prefix);
    DefaultStands(one, TagDirective("!!", "tag:yaml.org,2002:"), handle, prefix);
  }

  lemma {:induction false} DefaultStands(tags: seq<TagDirective>, d: TagDirective, handle: string, prefix: string)
    ensures IsNamed(WithDefault(tags, d), handle) <==> IsNamed(tags, handle) || handle == d.handle
    ensures StandsFor(WithDefault(tags, d), handle, prefix)
            <==> if IsNamed(tags, handle) then StandsFor(tags, handle, prefix)
                 else handle == d.handle && prefix == d.prefix
  {
    var all := WithDefault(tags, d);
    if IsNamed(tags, d.handle) {
      assert all == tags;
    } else {
      assert all == tags + [d];
      NamedIn(tags, d, handle, prefix);
    }
  }

  lemma {:induction false} NamedIn(tags: seq<TagDirective>, d: TagDirective, handle: string, prefix: string)
    ensures IsNamed(tags + [d], handle) <==> IsNamed(tags, handle) || handle == d.handle
    ensures StandsFor(tags + [d], handle, prefix)
            <==> if IsNamed(tags, handle) then StandsFor(tags, handle, prefix)
                 else handle == d.handle && prefix == d.prefix
  {
    var all := tags + [d];
    assert all[|tags|] == d;
    forall i | 0 <= i < |tags| ensures FirstNaming(all, handle, i) <==> FirstNaming(tags, handle, i) {
      assert forall j :: 0 <= j <= i ==> all[j] == tags[j];
    }
    if IsNamed(tags, handle) {
      var i :| 0 <= i < |tags| && tags[i].handle == handle;
      assert all[i].handle == handle && !FirstNaming(all, handle, |tags|);
    } else {
      assert forall j :: 0 <= j < |tags| ==> all[j] == tags[j];
      assert FirstNaming(all, handle, |tags|) <==> handle == d.handle;
    }
  }

  /** The directives agree: one version at most, which is 1.1, and no handle named twice. */
  ghost predicate Agreeing(ds: seq<Directive>) {
    && (forall i :: 0 <= i < |ds| && ds[i].VersionDirective? ==> ds[i].major == 1 && ds[i].minor == 1)
    && (forall i, j :: 0 <= i < j < |ds| ==> !(ds[i].VersionDirective? && ds[j].VersionDirective?))
    && forall i, j :: 0 <= i < j < |ds| && ds[i].TagNaming? && ds[j].TagNaming? ==>
         ds[i].directive.handle != ds[j].directive.handle
  }

  /** The same, after directives that included a version, or not, and named the handles of `tags`. */
  ghost predicate AgreeingAfter(ds: seq<Directive>, version: bool, tags: seq<TagDirective>) {
    && Agreeing(ds) && (version ==> forall i :: 0 <= i < |ds| ==> ds[i].TagNaming?)
    && forall i :: 0 <= i < |ds| && ds[i].TagNaming? ==> !IsNamed(tags, ds[i].directive.handle)
  }

  lemma {:induction false} DirectivesAgree(ds: seq<Directive>, version: bool, tags: seq<TagDirective>)
    ensures DirectivesExact(ds, version, tags) <==> AgreeingAfter(ds, version, tags)
    decreases ds
  {
    if ds != [] {
      var d, rest := ds[0], ds[1..];
      match d {
        case VersionDirective(_, _) => DirectivesAgree(rest, true, tags);
        case TagNaming(x) =>
          DirectivesAgree(rest, version, tags + [x]);
          forall handle ensures IsNamed(tags + [x], handle) <==> IsNamed(tags, handle) || handle == x.handle {
            NamedIn(tags, x, handle, "");
          }
      }
      AgreeingSplit(ds, version, tags);
    }
  }

  lemma {:induction false} AgreeingSplit(ds: seq<Directive>, version: bool, tags: seq<TagDirective>)
    requires ds != []
    ensures AgreeingAfter(ds, version, tags)
            <==> match ds[0]
                 case VersionDirective(major, minor) =>
                   !version && major == 1 && minor == 1 && AgreeingAfter(ds[1..], true, tags)
                 case TagNaming(x) => !IsNamed(tags, x.handle) && AgreeingAfter(ds[1..], version, tags + [x])
  {
    var rest := ds[1..];
    assert forall i :: 0 < i < |ds| ==> ds[i] == rest[i - 1];
    if ds[0].TagNaming? {
      var x := ds[0].directive;
      forall handle ensures IsNamed(tags + [x], handle) <==> IsNamed(tags, handle) || handle == x.handle {
        NamedIn(tags, x, handle, "");
      }
    }
  }

  /** A parser between two documents. */
  function Boundary(s: State, tokens: seq<Token>): PState { PState(s, [], [], [], tokens) }

  predicate EndsDocument(k: seq<Token>) { k != [] && (StartsExplicit(k[0]) || k[0].StreamEndT?) }

  lemma {:induction false} EndsAreSkipped(n: nat, p: PState, k: seq<Token>)
    requires p.tokens == EndTokens(n, k) && EndsDocument(k)
    ensures SkipDocumentEnds(p) == p.(tokens := k)
    decreases n
  {
    if n > 0 {
      SkipHead(p, DocumentEndT, EndTokens(n - 1, k));
      EndsAreSkipped(n - 1, Skip(p), k);
    }
  }

  lemma {:induction false} DirectiveRead(d: Directive, p: PState, version: bool, tags: seq<TagDirective>, k: seq<Token>)
    requires p.tokens == [DirectiveToken(d)] + k && p.tags == tags
    ensures var r := ProcessDirectives(p, version, tags);
            match d
            case VersionDirective(major, minor) =>
              if version || major != 1 || minor != 1 then r.Err?
              else r == ProcessDirectives(p.(tokens := k), true, tags)
            case TagNaming(x) =>
              if HandleDefined(tags, x.handle) then r.Err?
              else r == ProcessDirectives(p.(tags := tags + [x], tokens := k), version, tags + [x])
  {
    SkipHead(p, DirectiveToken(d), k);
    if d.TagNaming? {
      SkipHead(p.(tags := tags + [d.directive]), DirectiveToken(d), k);
    }
  }

  /** What processing the directives `ds` gives, in front of the tokens `k`. */
  ghost predicate Reads(ds: seq<Directive>, p: PState, version: bool, tags: seq<TagDirective>, k: seq<Token>) {
    var r := ProcessDirectives(p, version, tags);
    if !DirectivesExact(ds, version, tags) then r.Err?
    else r == Ok(Directives(p.(tags := WithDefaults(tags + DirectiveTags(ds)), tokens := k),
                            version || HasVersion(ds), tags + DirectiveTags(ds)))
  }

  lemma {:induction false} DirectivesRead(ds: seq<Directive>, p: PState, version: bool, tags: seq<TagDirective>,
                                          k: seq<Token>)
    requires p.tokens == DirectiveTokens(ds, k) && p.tags == tags
    requires k != [] && !k[0].VersionT? && !k[0].TagDirectiveT?
    ensures Reads(ds, p, version, tags, k)
    decreases ds
  {
    if ds == [] {
      assert tags + [] == tags;
    } else {
      var more := DirectiveTokens(ds[1..], k);
      DirectiveRead(ds[0], p, version, tags, more);
      match ds[0] {
        case VersionDirective(_, _) =>
          DirectivesRead(ds[1..], p.(tokens := more), true, tags, k);
          assert DirectiveTags(ds) == DirectiveTags(ds[1..]) by {
            assert [] + DirectiveTags(ds[1..]) == DirectiveTags(ds[1..]);
          }
        case TagNaming(d) =>
          DirectivesRead(ds[1..], p.(tags := tags + [d], tokens := more), version, tags + [d], k);
          assert tags + [d] + DirectiveTags(ds[1..]) == tags + DirectiveTags(ds) by {
            assert DirectiveTags(ds) == [d] + DirectiveTags(ds[1..]);
          }
      }
    }
  }

  /** The document end, from the state reached once the root node is complete. */
  lemma {:induction false} DocumentEndParses(p: PState, ends: nat, rest: seq<Token>, k: seq<Event>, g: Goal)
    requires p.state == SDocumentEnd && p.states == [] && p.marks == [] && p.tokens == EndTokens(ends, rest)
    requires EndsDocument(rest)
    ensures Meets(p, [DocumentEnd(ends == 0)] + k, g)
            <==> Meets(Boundary(SDocumentStart, EndTokens(if ends == 0 then 0 else ends - 1, rest)), k, g)
  {
    if ends > 0 {
      SkipHead(p, DocumentEndT, EndTokens(ends - 1, rest));
    }
    var q := Boundary(SDocumentStart, EndTokens(if ends == 0 then 0 else ends - 1, rest));
    EmitThen(DocumentEnd(ends == 0), q, k, g);
    StepThen(p, [DocumentEnd(ends == 0)] + k, g);
  }

  /** The root node and the document end, from the state in which the root is due. */
  lemma {:induction false} RootNodeParses(root: Tree, explicit: bool, p: PState, after: seq<Token>, k: seq<Event>,
                                          g: Goal)
    requires DerivesOptional(root, InSequence) && (!explicit ==> !root.Omitted?)
    requires p.state == if explicit then SDocumentContent else SBlockNode
    requires p.states != [] && p.tokens == Tokens(root, after)
    requires EndsDocument(after) || (after != [] && after[0].DocumentEndT?)
    requires g.strict || Exact(root, p.tags)
    ensures Meets(p, Events(root, p.tags, k), g) <==> Exact(root, p.tags) && Meets(PopTo(p).(tokens := after), k, g)
  {
    if root.Omitted? {
      EmitThen(EmptyScalar, PopTo(p), k, g);
    } else {
      NodeParses(root, InSequence, p, after, k, g);
      RootDispatch(root, p, after);
    }
    StepThen(p, Events(root, p.tags, k), g);
  }

  lemma {:induction false} RootDispatch(root: Tree, p: PState, k: seq<Token>)
    requires Derives(root, InSequence) && p.tokens == Tokens(root, k) && Follows(k, false)
    requires p.state == SDocumentContent || p.state == SBlockNode
    ensures Step(p) == ParseNode(p, true, false)
  {
    NodeHead(root, InSequence, k);
  }

  lemma {:induction false} DirectiveHead(ds: seq<Directive>, k: seq<Token>)
    ensures StartsExplicit(DirectiveTokens(ds, [DocumentStartT] + k)[0])
  {
  }

  /** The state in which the root of a document is due. */
  function Inside(d: SourceDocument, rest: seq<Token>): PState {
    PState(if d.explicit then SDocumentContent else SBlockNode, [SDocumentEnd], [],
           WithDefaults(DirectiveTags(d.directives)), Tokens(d.root, EndTokens(d.ends, rest)))
  }

  function StartEvent(d: SourceDocument): Event {
    DocumentStart(HasVersion(d.directives), DirectiveTags(d.directives), false)
  }

  lemma {:induction false} ExplicitStart(d: SourceDocument, first: bool, leftover: nat, rest: seq<Token>)
    requires d.explicit && (first ==> leftover == 0)
    ensures var o := ParseDocumentStart(Boundary(if first then SImplicitDocumentStart else SDocumentStart,
                                                 EndTokens(leftover, DocumentTokens(d, rest))), first);
            if DirectivesExact(d.directives, false, []) then o == Emit(StartEvent(d), Inside(d, rest)) else o.Fail?
  {
    var p := Boundary(if first then SImplicitDocumentStart else SDocumentStart,
                      EndTokens(leftover, DocumentTokens(d, rest)));
    var body := Tokens(d.root, EndTokens(d.ends, rest));
    var q := p.(tokens := DocumentTokens(d, rest));
    DirectiveHead(d.directives, body);
    if !first {
      EndsAreSkipped(leftover, p, q.tokens);
    }
    DirectivesRead(d.directives, q, false, [], [DocumentStartT] + body);
    assert [] + DirectiveTags(d.directives) == DirectiveTags(d.directives);
    var tags := WithDefaults(DirectiveTags(d.directives));
    SkipHead(q.(tags := tags, tokens := [DocumentStartT] + body), DocumentStartT, body);
    assert [] + [SDocumentEnd] == [SDocumentEnd];
  }

  lemma {:induction false} ImplicitStart(d: SourceDocument, rest: seq<Token>)
    requires DocumentDerives(d) && !d.explicit && EndsDocument(rest)
    ensures ParseDocumentStart(Boundary(SImplicitDocumentStart, DocumentTokens(d, rest)), true)
            == Emit(StartEvent(d), Inside(d, rest))
  {
    var body := Tokens(d.root, EndTokens(d.ends, rest));
    NodeHead(d.root, InSequence, EndTokens(d.ends, rest));
    DirectivesRead([], Boundary(SImplicitDocumentStart, body), false, [], body);
    assert [] + [SDocumentEnd] == [SDocumentEnd];
  }

  /** The parser before document `d`, with DOCUMENT-END tokens left over from the one before. */
  function Due(d: SourceDocument, first: bool, leftover: nat, rest: seq<Token>): PState {
    Boundary(if first then SImplicitDocumentStart else SDocumentStart, EndTokens(leftover, DocumentTokens(d, rest)))
  }

  /** The parser once `d` has been read, `rest` being the tokens after its DOCUMENT-ENDs. */
  function Done(d: SourceDocument, rest: seq<Token>): PState {
    Boundary(SDocumentStart, EndTokens(if d.ends == 0 then 0 else d.ends - 1, rest))
  }

  lemma {:induction false} DocumentStarts(d: SourceDocument, first: bool, leftover: nat, rest: seq<Token>)
    requires DocumentDerives(d) && EndsDocument(rest) && (first ==> leftover == 0) && (!first ==> d.explicit)
    ensures var o := Step(Due(d, first, leftover, rest));
            if DirectivesExact(d.directives, false, []) then o == Emit(StartEvent(d), Inside(d, rest)) else o.Fail?
  {
    if d.explicit {
      ExplicitStart(d, first, leftover, rest);
    } else {
      ImplicitStart(d, rest);
    }
  }

  lemma {:induction false} RootParses(d: SourceDocument, rest: seq<Token>, k: seq<Event>, g: Goal)
    requires DocumentDerives(d) && EndsDocument(rest)
    requires g.strict || Exact(d.root, Inside(d, rest).tags)
    ensures Meets(Inside(d, rest), Events(d.root, Inside(d, rest).tags, [DocumentEnd(d.ends == 0)] + k), g)
            <==> Exact(d.root, Inside(d, rest).tags) && Meets(Done(d, rest), k, g)
  {
    var p, after := Inside(d, rest), EndTokens(d.ends, rest);
    assert EndsDocument(after) || (after != [] && after[0].DocumentEndT?);
    RootNodeParses(d.root, d.explicit, p, after, [DocumentEnd(d.ends == 0)] + k, g);
    DocumentEndParses(PopTo(p).(tokens := after), d.ends, rest, k, g);
  }

  lemma {:induction false} DocumentInside(d: SourceDocument, p: PState, rest: seq<Token>, k: seq<Event>, g: Goal)
    requires DocumentDerives(d) && EndsDocument(rest) && DirectivesExact(d.directives, false, [])
    requires p.state.SImplicitDocumentStart? || p.state.SDocumentStart?
    requires Step(p) == Emit(StartEvent(d), Inside(d, rest))
    requires g.strict || DocumentExact(d)
    ensures Meets(p, DocumentEvents(d, k), g) <==> DocumentExact(d) && Meets(Done(d, rest), k, g)
  {
    var q := Inside(d, rest);
    var inside := Events(d.root, q.tags, [DocumentEnd(d.ends == 0)] + k);
    assert Meets(p, DocumentEvents(d, k), g) <==> Meets(q, inside, g) by {
      OpenedBefore(StartEvent(d), p, q, inside, g);
    }
    assert Meets(q, inside, g) <==> Exact(d.root, q.tags) && Meets(Done(d, rest), k, g) by {
      RootParses(d, rest, k, g);
    }
  }

  lemma {:induction false} DocumentParses(d: SourceDocument, first: bool, leftover: nat, rest: seq<Token>,
                                          k: seq<Event>, g: Goal)
    requires DocumentDerives(d) && EndsDocument(rest) && (first ==> leftover == 0) && (!first ==> d.explicit)
    requires g.strict || DocumentExact(d)
    ensures Meets(Due(d, first, leftover, rest), DocumentEvents(d, k), g)
            <==> DocumentExact(d) && Meets(Done(d, rest), k, g)
  {
    var p := Due(d, first, leftover, rest);
    DocumentStarts(d, first, leftover, rest);
    if DirectivesExact(d.directives, false, []) {
      DocumentInside(d, p, rest, k, g);
    } else {
      StepThen(p, DocumentEvents(d, k), g);
    }
  }

  lemma {:induction false} DocumentsEnd(docs: seq<SourceDocument>, k: seq<Token>)
    requires forall i :: 0 <= i < |docs| ==> docs[i].explicit
    ensures EndsDocument(DocumentsTokens(docs, [StreamEndT] + k))
  {
    if docs != [] {
      var d := docs[0];
      DirectiveHead(d.directives, Tokens(d.root, EndTokens(d.ends, DocumentsTokens(docs[1..], [StreamEndT] + k))));
    }
  }

  lemma {:induction false} DocumentsParse(docs: seq<SourceDocument>, first: bool, leftover: nat, k: seq<Token>,
                                          strict: bool)
    requires StreamDerives(docs) && (first ==> leftover == 0) && (!first && docs != [] ==> docs[0].explicit)
    requires strict || StreamExact(docs)
    ensures Meets(Boundary(if first then SImplicitDocumentStart else SDocumentStart,
                           EndTokens(leftover, DocumentsTokens(docs, [StreamEndT] + k))),
                  DocumentsEvents(docs, [StreamEnd]), Goal(Boundary(SEnd, k), strict))
            <==> StreamExact(docs)
    decreases docs
  {
    var g := Goal(Boundary(SEnd, k), strict);
    if docs == [] {
      var p := Boundary(if first then SImplicitDocumentStart else SDocumentStart,
                        EndTokens(leftover, [StreamEndT] + k));
      if !first {
        EndsAreSkipped(leftover, p, [StreamEndT] + k);
      }
      SkipHead(p.(tokens := [StreamEndT] + k), StreamEndT, k);
      EmitThen(StreamEnd, Boundary(SEnd, k), [], g);
      StepThen(p, [StreamEnd] + [], g);
      assert [StreamEnd] + [] == [StreamEnd];
    } else {
      var d := docs[0];
      assert forall i :: 0 <= i < |docs[1..]| ==> docs[1..][i] == docs[i + 1];
      DocumentsParse(docs[1..], false, if d.ends == 0 then 0 else d.ends - 1, k, strict);
      DocumentsEnd(docs[1..], k);
      DocumentParses(d, first, leftover, DocumentsTokens(docs[1..], [StreamEndT] + k),
                     DocumentsEvents(docs[1..], [StreamEnd]), g);
    }
  }

  /** The stream as a whole: from the initial state to the end state, leaving the tokens after the stream. */
  lemma {:induction false} StreamParses(docs: seq<SourceDocument>, k: seq<Token>, strict: bool)
    requires StreamDerives(docs) && (strict || StreamExact(docs))
    ensures Meets(Initial(StreamTokens(docs, k)), StreamEvents(docs), Goal(Boundary(SEnd, k), strict))
            <==> StreamExact(docs)
  {
    var p := Initial(StreamTokens(docs, k));
    var q := Boundary(SImplicitDocumentStart, DocumentsTokens(docs, [StreamEndT] + k));
    var g := Goal(Boundary(SEnd, k), strict);
    SkipHead(p, StreamStartT, DocumentsTokens(docs, [StreamEndT] + k));
    DocumentsParse(docs, true, 0, k, strict);
    EmitThen(StreamStart, q, DocumentsEvents(docs, [StreamEnd]), g);
    StepThen(p, StreamEvents(docs), g);
  }
}
