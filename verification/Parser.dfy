/**
 The parser as the source writes it: an object whose productions update `state`, `states`,
 `marks`, the tag directives and the read position in place.  Every production is proved to
 do exactly what its value-level counterpart in ParserSpec says, and `Parse` needs nothing
 but the invariant, so by ParserSound no stack is ever popped empty.
 */
module Parser {
  import opened Wrappers
  import opened G = EventGrammar
  import opened ParserSpec
  import ParserSound

  class YamlParser {
    const tokens: seq<Token>
    var head: nat
    var state: State
    var states: seq<State>
    var marks: seq<Mark>
    var tagDirectives: seq<TagDirective>
    var error: Option<ParseError>

    ghost predicate Wf()
      reads this
    {
      head <= |tokens|
    }

    ghost function View(): PState
      reads this
      requires Wf()
    {
      PState(state, states, marks, tagDirectives, tokens[head..])
    }

    ghost predicate Valid()
      reads this
    {
      Wf() && (error.None? ==> ParserSound.Inv(View()))
    }

    /** The object has done what outcome `o` says, returning `event`. */
    ghost predicate Did(o: Outcome, event: Option<Event>)
      reads this
    {
      && Wf()
      && match o
         case Emit(e, q) => event == Some(e) && error.None? && View() == q
         case Fail(err) => event.None? && error == Some(err)
         case Panic => false
    }

    constructor (tokens: seq<Token>)
      ensures Valid() && error.None? && View() == Initial(tokens)
    {
      this.tokens := tokens;
      head, state, states, marks, tagDirectives, error := 0, SStreamStart, [], [], [], None;
      new;
      assert tokens[0..] == tokens;
    }

    function Peek(): (t: Option<Token>)
      reads this
      requires Wf()
      ensures t.Some? <==> View().tokens != []
      ensures t.Some? ==> t.value == View().tokens[0]
    {
      if head < |tokens| then Some(tokens[head]) else None
    }

    method SkipToken()
      requires Wf() && View().tokens != []
      modifies this`head
      ensures Wf() && View() == Skip(old(View()))
    {
      head := head + 1;
    }

    method SetError(e: ParseError)
      modifies this`error
      ensures error == Some(e)
    {
      error := Some(e);
    }

    method PopState()
      requires Wf() && states != []
      modifies this`state, this`states
      ensures Wf() && View() == PopTo(old(View()))
    {
      state := states[|states| - 1];
      states := states[..|states| - 1];
    }

    method ParseStreamStart() returns (event: Option<Event>)
      requires Wf() && error.None?
      modifies this
      ensures Did(ParserSpec.ParseStreamStart(old(View())), event)
    {
      event := None;
      var token := Peek();
      if token.None? { SetError(NoToken); return; }
      if !token.value.StreamStartT? { SetError(ExpectedStreamStart); return; }
      state := SImplicitDocumentStart;
      SkipToken();
      event := Some(StreamStart);
    }

    method AppendTagDirective(d: TagDirective, allowDuplicates: bool) returns (ok: bool)
      requires Wf()
      modifies this`tagDirectives, this`error
      ensures Wf()
      ensures match AppendTag(old(tagDirectives), d, allowDuplicates)
              case Ok(all) => ok && tagDirectives == all && error == old(error)
              case Err(e) => !ok && tagDirectives == old(tagDirectives) && error == Some(e)
    {
      for i := 0 to |tagDirectives|
        invariant forall k :: 0 <= k < i ==> tagDirectives[k].handle != d.handle
        invariant tagDirectives == old(tagDirectives) && error == old(error)
      {
        if tagDirectives[i].handle == d.handle {
          if !allowDuplicates { SetError(DuplicateTagDirective); }
          return allowDuplicates;
        }
      }
      tagDirectives := tagDirectives + [d];
      return true;
    }

    method ProcessDirectives() returns (ok: bool, version: bool, tags: seq<TagDirective>)
      requires Wf() && error.None?
      modifies this
      ensures Wf()
      ensures match ParserSpec.ProcessDirectives(old(View()), false, [])
              case Ok(d) => ok && error.None? && View() == d.rest && version == d.version && tags == d.tags
              case Err(e) => !ok && error == Some(e)
    {
      version, tags := false, [];
      ghost var goal := ParserSpec.ProcessDirectives(View(), false, []);
      var token := Peek();
      if token.None? { SetError(NoToken); return false, version, tags; }
      while token.value.VersionT? || token.value.TagDirectiveT?
        invariant Wf() && error.None? && token == Peek() && token.Some?
        invariant goal == ParserSpec.ProcessDirectives(View(), version, tags)
        decreases |tokens| - head
      {
        if token.value.VersionT? {
          if version { SetError(DuplicateVersion); return false, version, tags; }
          if token.value.major != 1 || token.value.minor != 1 {
            SetError(IncompatibleVersion);
            return false, version, tags;
          }
          version := true;
        } else {
          var appended := AppendTagDirective(token.value.directive, false);
          if !appended { return false, version, tags; }
          tags := tags + [token.value.directive];
        }
        SkipToken();
        token := Peek();
        if token.None? { SetError(NoToken); return false, version, tags; }
      }
      ok := AppendTagDirective(DefaultTags[0], true);
      ok := AppendTagDirective(DefaultTags[1], true);
    }

    method ParseDocumentStart(implicit: bool) returns (event: Option<Event>)
      requires Wf() && error.None?
      modifies this
      ensures Did(ParserSpec.ParseDocumentStart(old(View()), implicit), event)
    {
      event := None;
      var token := Peek();
      if token.None? { SetError(NoToken); return; }
      if !implicit {
        while token.value.DocumentEndT?
          invariant Wf() && error.None? && token == Peek() && token.Some?
          invariant SkipDocumentEnds(View()) == SkipDocumentEnds(old(View()))
          decreases |tokens| - head
        {
          SkipToken();
          token := Peek();
          if token.None? { SetError(NoToken); return; }
        }
      }
      if implicit && !StartsExplicit(token.value) && !token.value.StreamEndT? {
        var ok, _, _ := ProcessDirectives();
        if !ok { return; }
        states := states + [SDocumentEnd];
        state := SBlockNode;
        event := Some(DocumentStart(false, [], false));
      } else if !token.value.StreamEndT? {
        var ok, version, tags := ProcessDirectives();
        if !ok { return; }
        token := Peek();
        if token.None? { SetError(NoToken); return; }
        if !token.value.DocumentStartT? { SetError(ExpectedDocumentStart); return; }
        states := states + [SDocumentEnd];
        state := SDocumentContent;
        event := Some(DocumentStart(version, tags, false));
        SkipToken();
      } else {
        state := SEnd;
        event := Some(StreamEnd);
        SkipToken();
      }
    }

    method ParseDocumentContent() returns (event: Option<Event>)
      requires Wf() && error.None?
      requires ParserSpec.ParseDocumentContent(View()) != Panic
      modifies this
      ensures Did(ParserSpec.ParseDocumentContent(old(View())), event)
    {
      var token := Peek();
      if token.None? { SetError(NoToken); return None; }
      if StartsExplicit(token.value) || token.value.DocumentEndT? || token.value.StreamEndT? {
        PopState();
        return Some(EmptyScalar);
      }
      event := ParseNode(true, false);
    }

    method ParseDocumentEnd() returns (event: Option<Event>)
      requires Wf() && error.None?
      modifies this
      ensures Did(ParserSpec.ParseDocumentEnd(old(View())), event)
    {
      var token := Peek();
      if token.None? { SetError(NoToken); return None; }
      var implicit := true;
      if token.value.DocumentEndT? {
        SkipToken();
        implicit := false;
      }
      tagDirectives := [];
      state := SDocumentStart;
      event := Some(DocumentEnd(implicit));
    }

    method Resolve(handle: string, suffix: string) returns (tag: Option<string>)
      ensures tag == ResolveTag(tagDirectives, Some(Tag(handle, suffix)))
    {
      if handle == "" { return Some(suffix); }
      var i := 0;
      while i < |tagDirectives|
        invariant i <= |tagDirectives|
        invariant FindPrefix(tagDirectives, handle) == FindPrefix(tagDirectives[i..], handle)
      {
        if tagDirectives[i].handle == handle {
          var full := tagDirectives[i].prefix + suffix;
          return if full == "" then None else Some(full);
        }
        assert tagDirectives[i..][1..] == tagDirectives[i + 1..];
        i := i + 1;
      }
      return None;
    }

    /** Reads the anchor and tag in front of a node. */
    method ReadProperties() returns (ok: bool, anchor: Option<string>, tag: Option<Tag>)
      requires Wf() && error.None? && View().tokens != []
      modifies this`head, this`error
      ensures Wf()
      ensures match ParseProperties(old(View()))
              case None => !ok && error == Some(NoToken)
              case Some(p) => ok && error.None? && View() == p.rest && anchor == p.anchor && tag == p.tag
    {
      anchor, tag := None, None;
      var token := Peek();
      if token.value.AnchorT? {
        anchor := Some(token.value.name);
        SkipToken();
        token := Peek();
        if token.None? { SetError(NoToken); return false, anchor, tag; }
        if token.value.TagT? {
          tag := Some(Tag(token.value.handle, token.value.suffix));
          SkipToken();
          token := Peek();
          if token.None? { SetError(NoToken); return false, anchor, tag; }
        }
      } else if token.value.TagT? {
        tag := Some(Tag(token.value.handle, token.value.suffix));
        SkipToken();
        token := Peek();
        if token.None? { SetError(NoToken); return false, anchor, tag; }
        if token.value.AnchorT? {
          anchor := Some(token.value.name);
          SkipToken();
          token := Peek();
          if token.None? { SetError(NoToken); return false, anchor, tag; }
        }
      }
      ok := true;
    }

    method ParseNode(block: bool, indentless: bool) returns (event: Option<Event>)
      requires Wf() && error.None?
      requires ParserSpec.ParseNode(View(), block, indentless) != Panic
      modifies this
      ensures Did(ParserSpec.ParseNode(old(View()), block, indentless), event)
    {
      var token := Peek();
      if token.None? { SetError(NoToken); return None; }
      if token.value.AliasT? {
        PopState();
        SkipToken();
        return Some(Alias(token.value.name));
      }
      var ok, anchor, tagToken := ReadProperties();
      if !ok { return None; }
      var tag := Some("");
      if tagToken.Some? {
        tag := Resolve(tagToken.value.handle, tagToken.value.suffix);
        if tag.None? { SetError(UndefinedTagHandle); return None; }
      }
      event := ParseContent(block, indentless, anchor, tag.value);
    }

    method ParseContent(block: bool, indentless: bool, anchor: Option<string>, tag: string)
      returns (event: Option<Event>)
      requires Wf() && error.None? && View().tokens != []
      requires ParserSpec.ParseContent(View(), block, indentless, anchor, tag) != Panic
      modifies this
      ensures Did(ParserSpec.ParseContent(old(View()), block, indentless, anchor, tag), event)
    {
      var token := Peek().value;
      var implicit := tag == "";
      if indentless && token.BlockEntryT? {
        state := SIndentlessSequenceEntry;
        return Some(SequenceStart(anchor, tag, implicit, Block));
      }
      if token.ScalarT? {
        var plain, quoted := false, false;
        if (tag == "" && token.style == Plain) || tag == "!" {
          plain := true;
        } else if tag == "" {
          quoted := true;
        }
        PopState();
        SkipToken();
        return Some(Scalar(anchor, tag, token.value, plain, quoted, token.style));
      }
      if token.FlowSequenceStartT? {
        state := SFlowSequenceFirstEntry;
        return Some(SequenceStart(anchor, tag, implicit, Flow));
      }
      if token.FlowMappingStartT? {
        state := SFlowMappingFirstKey;
        return Some(MappingStart(anchor, tag, implicit, Flow));
      }
      if block && token.BlockSequenceStartT? {
        state := SBlockSequenceFirstEntry;
        return Some(SequenceStart(anchor, tag, implicit, Block));
      }
      if block && token.BlockMappingStartT? {
        state := SBlockMappingFirstKey;
        return Some(MappingStart(anchor, tag, implicit, Block));
      }
      if (anchor.Some? && anchor.value != "") || tag != "" {
        PopState();
        return Some(Scalar(anchor, tag, "", implicit, false, Plain));
      }
      SetError(ExpectedNodeContent);
      event := None;
    }

    method EnterCollection()
      requires Wf() && View().tokens != []
      modifies this`marks, this`head
      ensures Wf() && Some(View()) == Enter(old(View()))
    {
      marks := marks + [|tokens| - head];
      SkipToken();
    }

    method CloseCollection(e: Event) returns (event: Option<Event>)
      requires Wf() && error.None? && View().tokens != [] && states != [] && marks != []
      modifies this
      ensures Did(EmitClose(old(View()), e), event)
    {
      PopState();
      marks := marks[..|marks| - 1];
      SkipToken();
      event := Some(e);
    }

    method ParseBlockSequenceEntry() returns (event: Option<Event>)
      requires Wf() && error.None?
      requires ParserSpec.ParseBlockSequenceEntry(View()) != Panic
      modifies this
      ensures Did(ParserSpec.ParseBlockSequenceEntry(old(View())), event)
    {
      event := None;
      var token := Peek();
      if token.None? { SetError(NoToken); return; }
      if token.value.BlockEntryT? {
        SkipToken();
        token := Peek();
        if token.None? { SetError(NoToken); return; }
        if !token.value.BlockEntryT? && !token.value.BlockEndT? {
          states := states + [SBlockSequenceEntry];
          event := ParseNode(true, false);
          return;
        }
        state := SBlockSequenceEntry;
        return Some(EmptyScalar);
      }
      if token.value.BlockEndT? {
        event := CloseCollection(SequenceEnd);
        return;
      }
      var context := marks[|marks| - 1];
      marks := marks[..|marks| - 1];
      SetError(ExpectedEntry(context));
    }

    method ParseIndentlessSequenceEntry() returns (event: Option<Event>)
      requires Wf() && error.None?
      requires ParserSpec.ParseIndentlessSequenceEntry(View()) != Panic
      modifies this
      ensures Did(ParserSpec.ParseIndentlessSequenceEntry(old(View())), event)
    {
      event := None;
      var token := Peek();
      if token.None? { SetError(NoToken); return; }
      if token.value.BlockEntryT? {
        SkipToken();
        token := Peek();
        if token.None? { SetError(NoToken); return; }
        if !token.value.BlockEntryT? && !token.value.KeyT? && !token.value.ValueT? && !token.value.BlockEndT? {
          states := states + [SIndentlessSequenceEntry];
          event := ParseNode(true, false);
          return;
        }
        state := SIndentlessSequenceEntry;
        return Some(EmptyScalar);
      }
      PopState();
      event := Some(SequenceEnd);
    }

    method ParseBlockMappingKey() returns (event: Option<Event>)
      requires Wf() && error.None?
      requires ParserSpec.ParseBlockMappingKey(View()) != Panic
      modifies this
      ensures Did(ParserSpec.ParseBlockMappingKey(old(View())), event)
    {
      event := None;
      var token := Peek();
      if token.None? { SetError(NoToken); return; }
      if token.value.KeyT? {
        SkipToken();
        token := Peek();
        if token.None? { SetError(NoToken); return; }
        if !EndsBlockPart(token.value) {
          states := states + [SBlockMappingValue];
          event := ParseNode(true, true);
          return;
        }
        state := SBlockMappingValue;
        return Some(EmptyScalar);
      }
      if token.value.BlockEndT? {
        event := CloseCollection(MappingEnd);
        return;
      }
      var context := marks[|marks| - 1];
      marks := marks[..|marks| - 1];
      SetError(ExpectedKey(context));
    }

    method ParseBlockMappingValue() returns (event: Option<Event>)
      requires Wf() && error.None?
      requires ParserSpec.ParseBlockMappingValue(View()) != Panic
      modifies this
      ensures Did(ParserSpec.ParseBlockMappingValue(old(View())), event)
    {
      event := None;
      var token := Peek();
      if token.None? { SetError(NoToken); return; }
      if token.value.ValueT? {
        SkipToken();
        token := Peek();
        if token.None? { SetError(NoToken); return; }
        if !EndsBlockPart(token.value) {
          states := states + [SBlockMappingKey];
          event := ParseNode(true, true);
          return;
        }
      }
      state := SBlockMappingKey;
      event := Some(EmptyScalar);
    }

    method ParseFlowSequenceEntry(first: bool) returns (event: Option<Event>)
      requires Wf() && error.None?
      requires ParserSpec.ParseFlowSequenceEntry(View(), first) != Panic
      modifies this
      ensures Did(ParserSpec.ParseFlowSequenceEntry(old(View()), first), event)
    {
      event := None;
      var token := Peek();
      if token.None? { SetError(NoToken); return; }
      if !token.value.FlowSequenceEndT? {
        if !first {
          if token.value.FlowEntryT? {
            SkipToken();
            token := Peek();
            if token.None? { SetError(NoToken); return; }
          } else {
            var context := marks[|marks| - 1];
            marks := marks[..|marks| - 1];
            SetError(ExpectedCommaOrBracket(context));
            return;
          }
        }
        if token.value.KeyT? {
          state := SFlowSequenceEntryMappingKey;
          SkipToken();
          return Some(MappingStart(None, "", true, Flow));
        } else if !token.value.FlowSequenceEndT? {
          states := states + [SFlowSequenceEntry];
          event := ParseNode(false, false);
          return;
        }
      }
      event := CloseCollection(SequenceEnd);
    }

    method ParseFlowSequenceEntryMappingKey() returns (event: Option<Event>)
      requires Wf() && error.None?
      requires ParserSpec.ParseFlowSequenceEntryMappingKey(View()) != Panic
      modifies this
      ensures Did(ParserSpec.ParseFlowSequenceEntryMappingKey(old(View())), event)
    {
      event := None;
      var token := Peek();
      if token.None? { SetError(NoToken); return; }
      if !token.value.ValueT? && !token.value.FlowEntryT? && !token.value.FlowSequenceEndT? {
        states := states + [SFlowSequenceEntryMappingValue];
        event := ParseNode(false, false);
        return;
      }
      SkipToken();
      state := SFlowSequenceEntryMappingValue;
      event := Some(EmptyScalar);
    }

    method ParseFlowSequenceEntryMappingValue() returns (event: Option<Event>)
      requires Wf() && error.None?
      requires ParserSpec.ParseFlowSequenceEntryMappingValue(View()) != Panic
      modifies this
      ensures Did(ParserSpec.ParseFlowSequenceEntryMappingValue(old(View())), event)
    {
      event := None;
      var token := Peek();
      if token.None? { SetError(NoToken); return; }
      if token.value.ValueT? {
        SkipToken();
        token := Peek();
        if token.None? { SetError(NoToken); return; }
        if !token.value.FlowEntryT? && !token.value.FlowSequenceEndT? {
          states := states + [SFlowSequenceEntryMappingEnd];
          event := ParseNode(false, false);
          return;
        }
      }
      state := SFlowSequenceEntryMappingEnd;
      event := Some(EmptyScalar);
    }

    method ParseFlowSequenceEntryMappingEnd() returns (event: Option<Event>)
      requires Wf() && error.None?
      modifies this
      ensures Did(ParserSpec.ParseFlowSequenceEntryMappingEnd(old(View())), event)
    {
      var token := Peek();
      if token.None? { SetError(NoToken); return None; }
      state := SFlowSequenceEntry;
      event := Some(MappingEnd);
    }

    method ParseFlowMappingKey(first: bool) returns (event: Option<Event>)
      requires Wf() && error.None?
      requires ParserSpec.ParseFlowMappingKey(View(), first) != Panic
      modifies this
      ensures Did(ParserSpec.ParseFlowMappingKey(old(View()), first), event)
    {
      event := None;
      var token := Peek();
      if token.None? { SetError(NoToken); return; }
      if !token.value.FlowMappingEndT? {
        if !first {
          if token.value.FlowEntryT? {
            SkipToken();
            token := Peek();
            if token.None? { SetError(NoToken); return; }
          } else {
            var context := marks[|marks| - 1];
            marks := marks[..|marks| - 1];
            SetError(ExpectedCommaOrBrace(context));
            return;
          }
        }
        if token.value.KeyT? {
          SkipToken();
          token := Peek();
          if token.None? { SetError(NoToken); return; }
          if !token.value.ValueT? && !token.value.FlowEntryT? && !token.value.FlowMappingEndT? {
            states := states + [SFlowMappingValue];
            event := ParseNode(false, false);
            return;
          }
          state := SFlowMappingValue;
          return Some(EmptyScalar);
        } else if !token.value.FlowMappingEndT? {
          states := states + [SFlowMappingEmptyValue];
          event := ParseNode(false, false);
          return;
        }
      }
      event := CloseCollection(MappingEnd);
    }

    method ParseFlowMappingValue(empty: bool) returns (event: Option<Event>)
      requires Wf() && error.None?
      requires ParserSpec.ParseFlowMappingValue(View(), empty) != Panic
      modifies this
      ensures Did(ParserSpec.ParseFlowMappingValue(old(View()), empty), event)
    {
      event := None;
      var token := Peek();
      if token.None? { SetError(NoToken); return; }
      if empty {
        state := SFlowMappingKey;
        return Some(EmptyScalar);
      }
      if token.value.ValueT? {
        SkipToken();
        token := Peek();
        if token.None? { SetError(NoToken); return; }
        if !token.value.FlowEntryT? && !token.value.FlowMappingEndT? {
          states := states + [SFlowMappingKey];
          event := ParseNode(false, false);
          return;
        }
      }
      state := SFlowMappingKey;
      event := Some(EmptyScalar);
    }

    method StateMachine() returns (event: Option<Event>)
      requires Wf() && error.None? && state != SEnd
      requires Step(View()) != Panic
      modifies this
      ensures Did(Step(old(View())), event)
    {
      match state {
        case SStreamStart => event := ParseStreamStart();
        case SImplicitDocumentStart => event := ParseDocumentStart(true);
        case SDocumentStart => event := ParseDocumentStart(false);
        case SDocumentContent => event := ParseDocumentContent();
        case SDocumentEnd => event := ParseDocumentEnd();
        case SBlockNode => event := ParseNode(true, false);
        case SBlockSequenceFirstEntry => EnterCollection(); event := ParseBlockSequenceEntry();
        case SBlockSequenceEntry => event := ParseBlockSequenceEntry();
        case SIndentlessSequenceEntry => event := ParseIndentlessSequenceEntry();
        case SBlockMappingFirstKey => EnterCollection(); event := ParseBlockMappingKey();
        case SBlockMappingKey => event := ParseBlockMappingKey();
        case SBlockMappingValue => event := ParseBlockMappingValue();
        case SFlowSequenceFirstEntry => EnterCollection(); event := ParseFlowSequenceEntry(true);
        case SFlowSequenceEntry => event := ParseFlowSequenceEntry(false);
        case SFlowSequenceEntryMappingKey => event := ParseFlowSequenceEntryMappingKey();
        case SFlowSequenceEntryMappingValue => event := ParseFlowSequenceEntryMappingValue();
        case SFlowSequenceEntryMappingEnd => event := ParseFlowSequenceEntryMappingEnd();
        case SFlowMappingFirstKey => EnterCollection(); event := ParseFlowMappingKey(true);
        case SFlowMappingKey => event := ParseFlowMappingKey(false);
        case SFlowMappingValue => event := ParseFlowMappingValue(false);
        case SFlowMappingEmptyValue => event := ParseFlowMappingValue(true);
      }
    }

    /** The next event; none after the end of the stream or an error. */
    method Parse() returns (event: Option<Event>)
      requires Valid()
      modifies this
      ensures Valid()
      ensures old(error.Some? || state == SEnd) ==> event.None? && unchanged(this)
      ensures old(error.None? && state != SEnd) ==> Did(Step(old(View())), event)
    {
      if error.Some? || state == SEnd {
        return None;
      }
      ParserSound.StepSound(View());
      event := StateMachine();
    }
  }
}
