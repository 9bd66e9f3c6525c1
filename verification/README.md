# Verification of romulus and its vendored core

Dafny models, with proofs, of the parts of romulus that carry the most
state: the YAML pipeline it reads its configuration with (yaml.v2), the HDR histogram and its
sliding window, the token bucket, the reconciler that drives vulcand, the translation of
annotations to routes, and semantic versions.

Run `dafny verify dfyconfig.toml --resource-limit 4000000 --verification-time-limit 0` in this
directory.

## How the model is built

Code that updates state is a class (or a method with loops) whose contracts tie each new
state to a function on values; the properties are lemmas about those functions. Where the
code ranges over a Go map, calls a store that may fail, or is handed bytes in chunks, the
model is nondeterministic and the contracts hold for every choice.

- **Events** (`EventGrammar`): the grammar at the top of `parserc.go`, as document trees and as
  a pushdown automaton.
- **Parser** (`ParserSpec`, `Parser`, `ParserSound`, `ParserComplete`, `ParserStream`,
  `ParserBrackets`, `ParserExact`, `ParserConserves`, `ParserMarks`, `ParserErrors`): arbitrary
  tokens in, events out. A mark is the number of tokens to the end. Soundness holds for every
  token sequence; completeness for the documented token grammar, up to two departures in the code:
  in a flow sequence, a KEY without a key node makes the parser skip one token too many, and
  a pair of a block mapping that begins at its VALUE is refused. The exact condition under
  which a stream is read as the grammar means it (`StreamExact`, by way of `Exact`), with what
  the grammar leaves to directives and tags, is proved. A goal of a run (`Goal`) is a state to
  end in, and whether a closing bracket may be dropped on the way.
- **Scanner** (`TokenQueue`, `ScannerSpec`, `ScannerSound`, `ScannerTokens`, `ScannerRules`,
  `Scanner`): the token queue, the simple-key and indentation stacks. The character layer is an
  arbitrary list of lexemes with their places in the text. The panic "should not happen" can
  happen; the exact condition is proved.
- **Emitter** (`EmitterSpec`, `EmitterSound`, `EmitterLevels`, `EmitterStyle`,
  `EmitterChoices`, `Emitter`): states, lookahead, stacks and indentation levels. What
  the text layer decides (whether a content is acceptable, whether a simple key or an
  indentless sequence is possible) is an arbitrary choice at every event.
- **Trees** (`TreeBuilder`, `Decoder`, `DecoderMeaning`, `Pipeline`): events to nodes, decoding
  with aliases and merges to generic values, what trees mean apart from how they are decoded,
  and what holds from tokens to the end of each chain.
- **Bytes** (`Utf8`, `Reader`, `ByteMarks`): section 3 of RFC 3629 and sections 2.2
  and 4.1 of RFC 2781. The read handler delivers at least one byte, the end of the input, or an error.
- **Double-quoted scalars** (`QuotedSpec`, `QuotedRoundTrip`, `QuotedLayout`, `QuotedFolds`,
  `CharClass`, `QuotedWriter`, `QuotedScanner`): section 9.1.1 of YAML 1.1. The round trip holds
  of every value at an indent of at least one column. The emitter's object is proved to have
  that inside every scalar, and `ScalarsReadBack` puts the two together. The scanner's input is a
  sequence of characters that reads as NUL past its end.
- **Histogram** (`HdrIndex`, `Histogram`, `HistogramMerge`, `Window`), **bucket** (`TokenBucket`):
  integers are mathematical.
- **Reconciler** (`Store`, `Vulcand`, `Reconciler`): a call may fail, and a failed call may or
  may not have taken effect; upserting a backend is taken to leave its servers alone, and
  deleting it to delete them. The store after every call is recorded. The frontend of a
  resource uses the backend of the same id, as `NewFrontend` builds it.
  `faults` counts the calls that failed, and the commits whose back-off ended
  them; the back-off may refuse any attempt.
- **Annotations and routes** (`Annotations`, `Routes`, `RouteReading`), **versions** (`Semver`).

## Model

| member | source | states |
|---|---|---|
| EventGrammar.AutomatonIsGrammar | Godeps/_workspace/src/gopkg.in/yaml.v2/parserc.go:9-43 | The event grammar given by document trees and the pushdown automaton that reads events one at a time describe the same words, and the same prefixes of words. |
| EventGrammar.WordRuns | Godeps/_workspace/src/gopkg.in/yaml.v2/parserc.go:9-43 | Every flattened stream of valid documents drives the automaton from its start to its end. |
| EventGrammar.RunHasTree | Godeps/_workspace/src/gopkg.in/yaml.v2/parserc.go:9-43 | Every sequence of events the automaton takes is the text of a partly built stream whose open collections are those the automaton expects. |
| EventGrammar.PartialCompletes | Godeps/_workspace/src/gopkg.in/yaml.v2/parserc.go:9-43 | Every partly built stream can be completed to a whole word. |
| ParserSound.StepSound | Godeps/_workspace/src/gopkg.in/yaml.v2/parserc.go:93-172 | From every reachable parser state one step never pops an empty stack, and emits only an event the grammar allows there. |
| ParserSound.RunSound | Godeps/_workspace/src/gopkg.in/yaml.v2/parserc.go:93-172 | Over a whole run the state and mark stacks stay those of the open collections, and the automaton has followed every event. |
| ParserSound.ParserSpeaksGrammar | Godeps/_workspace/src/gopkg.in/yaml.v2/parserc.go:93-1006 | For every token sequence, well formed or not: the events returned so far begin a word of the grammar, the next step cannot panic, and exactly when STREAM-END has been returned they are a complete word and both stacks are empty. |
| ParserExact.ParserFollowsGrammar | Godeps/_workspace/src/gopkg.in/yaml.v2/parserc.go:9-43 | For every stream the documented token grammar derives (KEYs, VALUEs and their nodes omitted wherever it allows): the parser turns its tokens into exactly the events of the derivation (each scalar with its token's text and style, each tag written out by the first directive that names its handle, each absent node an empty plain scalar), stops in the end state and leaves what follows, if and only if the directives of each document agree, every tag handle is defined, nodes without content have a name or a tag that is not empty, no pair of a block mapping begins at its VALUE, and no flow sequence has a pair without a key that loses a token it needs (`?` alone is harmless only before a last comma; `? :` always is; `? : x` never is). |
| ParserBrackets.RunCounted | Godeps/_workspace/src/gopkg.in/yaml.v2/parserc.go:771-851 | Over any run the flow sequences open plus the brackets unread never get fewer, and where the sum is the same at both ends no closing bracket was dropped; so a lost bracket is never made up for. |
| ParserBrackets.StepCounted | Godeps/_workspace/src/gopkg.in/yaml.v2/parserc.go:93-172 | Each step keeps that sum, except the one that drops the bracket after a KEY, which adds one. |
| ParserComplete.NodeParses | Godeps/_workspace/src/gopkg.in/yaml.v2/parserc.go:360-562 | On the tokens of one node, in whatever context, the next events are exactly the node's, with its anchor, its tag written out, its text, style and implicit marks, followed by given others if and only if the same conditions hold inside the node and the others follow from the state the parser was to return to. |
| ParserComplete.BlockPairsParse | Godeps/_workspace/src/gopkg.in/yaml.v2/parserc.go:676-764 | The same for the pairs of a block mapping up to its end, each with or without its KEY, its VALUE and their nodes: exactly when every pair begins with a KEY and is itself read well. |
| ParserComplete.ValueMisread | Godeps/_workspace/src/gopkg.in/yaml.v2/parserc.go:707-721 | A pair that is only a KEY, followed by one that is only a VALUE, shares its tokens with one whole pair and is read as that: never with the events of the two. |
| ParserComplete.SequenceItemsParse | Godeps/_workspace/src/gopkg.in/yaml.v2/parserc.go:771-851 | The same for the entries of a flow sequence up to its closing bracket: exactly when every entry is read well, and has a key node, or an explicit empty value, or stands before the last comma without a value. |
| ParserComplete.ScalarTokenEvent | Godeps/_workspace/src/gopkg.in/yaml.v2/parserc.go:465-491 | A SCALAR token becomes a scalar with its text and style, the node's anchor and tag; it is implicit exactly if plain without a tag or tagged `!`, and quoted-implicit exactly if quoted without a tag. |
| ParserComplete.Resolves | Godeps/_workspace/src/gopkg.in/yaml.v2/parserc.go:429-452 | A tag resolves exactly when its handle is empty, or is named by a directive and the whole is not empty; it is then the suffix alone, or the prefix of the first directive with that handle, followed by the suffix. |
| ParserStream.DefaultsStand | Godeps/_workspace/src/gopkg.in/yaml.v2/parserc.go:1062-1071 | In a document a handle stands for the prefix its directives give it, `!` otherwise for itself, `!!` for the standard tags, and no other handle for anything. |
| ParserStream.DirectivesAgree | Godeps/_workspace/src/gopkg.in/yaml.v2/parserc.go:1014-1072 | The directives of a document agree if and only if at most one gives a version, which is 1.1, and no two name the same handle. |
| ParserConserves.ParserConservesText | Godeps/_workspace/src/gopkg.in/yaml.v2/parserc.go:93-1006 | Over every run, on any tokens: the anchors, alias names, non-empty texts with their styles and tag directives of the events returned, followed by those of the tokens left, are those of all the tokens, in order. |
| ParserMarks.StepMarks | Godeps/_workspace/src/gopkg.in/yaml.v2/parserc.go:93-172 | At every step, on any tokens, the mark stack names the start tokens of the open collections that keep a mark, outermost first, and tokens ending in STREAM-END have not run out. |
| ParserErrors.ParserBlames | Godeps/_workspace/src/gopkg.in/yaml.v2/parserc.go:76-90 | Wherever a run can get, a failing step blames what is there: a repeated or wrong directive, a missing document start, a tag handle that stands for nothing, a token that starts no node, or, in a collection, a token that is neither its next part nor its end; the context named is then the start of the innermost open collection. |
| ParserErrors.TokensSuffice | Godeps/_workspace/src/gopkg.in/yaml.v2/parserc.go:46-59 | If the tokens end in STREAM-END the parser never runs out of them before it has returned the stream's end. |
| ParserExact.OmittedKeyContinues | Godeps/_workspace/src/gopkg.in/yaml.v2/parserc.go:834-884 | In a flow sequence, a KEY with no key node loses the token after it, whatever comes next: a VALUE is then taken for the pair's own, a bracket closes the sequence, a comma leads to the next entry, and anything else is an error after an empty pair. |
| ParserExact.OmittedKeyCounterexample | Godeps/_workspace/src/gopkg.in/yaml.v2/parserc.go:834-851 | Concretely, the tokens of `[? : x]` derive from the documented grammar and are refused. |
| ParserExact.OmittedKeyTokenCounterexample | Godeps/_workspace/src/gopkg.in/yaml.v2/parserc.go:707-721 | Concretely, the tokens of `: x`, a block mapping that begins at a VALUE, derive from the documented grammar and are refused. |
| Parser.YamlParser.Parse | Godeps/_workspace/src/gopkg.in/yaml.v2/parserc.go:62-73 | The object's next event and new state are those of the step on values; after the end or an error it returns nothing more. |
| Parser.YamlParser.StateMachine | Godeps/_workspace/src/gopkg.in/yaml.v2/parserc.go:93-172 | Dispatch on the state does what the step on values says, for every state. |
| Parser.YamlParser.ParseNode | Godeps/_workspace/src/gopkg.in/yaml.v2/parserc.go:360-562 | Anchors, tags in either order and their resolution, then the content, as on values, which `NodeParses` ties to the grammar. |
| Parser.YamlParser.ParseDocumentStart | Godeps/_workspace/src/gopkg.in/yaml.v2/parserc.go:199-281 | Implicit and explicit document starts, their directives, and the end of the stream, as on values. |
| Parser.YamlParser.ProcessDirectives | Godeps/_workspace/src/gopkg.in/yaml.v2/parserc.go:1014-1072 | Version and tag directives are collected until the first other token; duplicates and wrong versions are errors; the default tags are added. |
| ScannerSound.FetchKeeps | Godeps/_workspace/src/gopkg.in/yaml.v2/scannerc.go:665-838 | Fetching one token keeps the invariant (one simple key per flow level, each possible key naming the queued token that starts where it was saved, key numbers increasing with the level, indentation levels increasing from -1, block starts and ends balanced), leaves what the parser has taken as it was, and queues at least one token. |
| ScannerSound.KeyLandsBeforeItsToken | Godeps/_workspace/src/gopkg.in/yaml.v2/scannerc.go:1274-1300 | A KEY found late, and the BLOCK-MAPPING-START it may need, land in the queue immediately before the token where the key was saved; nothing else moves. |
| ScannerSound.ValueKeeps | Godeps/_workspace/src/gopkg.in/yaml.v2/scannerc.go:1274-1336 | After the late insertion every older possible key still names its own token, and block balance and indentation levels agree. |
| ScannerSound.SaveKeeps | Godeps/_workspace/src/gopkg.in/yaml.v2/scannerc.go:867-897 | A saved key names the token about to be queued and lies above every older key. |
| ScannerSound.UnrollKeeps | Godeps/_workspace/src/gopkg.in/yaml.v2/scannerc.go:966-987 | Closing blocks never pops an empty indentation stack and stops at the innermost level not beyond the column; unrolling to -1 outside flow collections closes every open block. |
| ScannerSound.StreamEndCloses | Godeps/_workspace/src/gopkg.in/yaml.v2/scannerc.go:1016-1044 | At the end of the stream in block context no block is left open. |
| ScannerSound.SettledHasNoKeys | Godeps/_workspace/src/gopkg.in/yaml.v2/scannerc.go:626-662 | Once STREAM-END is queued no possible key can be left at the head of the queue, so fetching ends. |
| ScannerSound.FetchMoreKeeps | Godeps/_workspace/src/gopkg.in/yaml.v2/scannerc.go:626-662 | The fetch loop ends, and the token it leaves at the head is final: no later KEY can be inserted before it. |
| ScannerSound.RunKeeps | Godeps/_workspace/src/gopkg.in/yaml.v2/scannerc.go:571-596 | Over every run of the parser taking tokens: the invariant holds, tokens already taken never change, and every prefix of what was taken has at least as many block starts as ends. |
| ScannerSound.PanicIff | Godeps/_workspace/src/gopkg.in/yaml.v2/scannerc.go:867-878 | The panic marked as impossible happens exactly when something that can start a node (well formed or not, as the key is saved before the token is scanned) stands, on the scanner's current line where no simple key is allowed, at the column of an open block (and no stale required key is reported first). |
| ScannerSound.PanicReachable | Godeps/_workspace/src/gopkg.in/yaml.v2/scannerc.go:867-878 | A readable text whose quoted value ends on the next line, with text right after the quote at the block's column, reaches that panic. |
| ScannerSound.InsertBalanced | Godeps/_workspace/src/gopkg.in/yaml.v2/apic.go:8-25 | Inserting a token anywhere in the queue keeps every prefix balanced unless it is a BLOCK-END, which may go only to the end and only while a block is open. |
| ScannerTokens.ScannerTellsText | Godeps/_workspace/src/gopkg.in/yaml.v2/scannerc.go:571-596 | Over every run: without the inserted KEY, BLOCK-SEQUENCE-START, BLOCK-MAPPING-START and BLOCK-END, the tokens made are STREAM-START, one token for each lexeme read, of the kind a table gives and with the lexeme's marks, and STREAM-END once all are read; and each inserted token introduces the next one: a sequence start an entry, a mapping start a KEY or VALUE, a KEY the node saved as one. |
| ScannerRules.OldKeysGo | Godeps/_workspace/src/gopkg.in/yaml.v2/scannerc.go:842-863 | A simple key is given up exactly when its line has ended or it is more than 1024 characters back, and that is an error exactly if it was required. |
| ScannerRules.FetchRules | Godeps/_workspace/src/gopkg.in/yaml.v2/scannerc.go:665-838 | Exactly when a lexeme is refused, and what a lexeme taken leaves: the flow level, whether a key may start next, and which key is saved or given up. |
| ScannerRules.FetchMakes | Godeps/_workspace/src/gopkg.in/yaml.v2/scannerc.go:665-838 | The exact queue after each lexeme: a BLOCK-END for each level deeper than it, then its token, with a block start before it where it opens a block, or a KEY and perhaps a mapping start before the node a ':' made a key. |
| TokenQueue.Queue.Compact | Godeps/_workspace/src/gopkg.in/yaml.v2/apic.go:11-18 | Moving the live tokens to the front of the array changes none of them. |
| TokenQueue.Queue.Insert | Godeps/_workspace/src/gopkg.in/yaml.v2/apic.go:8-25 | The queue's contents become the old ones with the token at the given place, across compaction and reallocation. |
| Scanner.TokenScanner.StaleSimpleKeys | Godeps/_workspace/src/gopkg.in/yaml.v2/scannerc.go:842-863 | The loop drops every key that is on an earlier line or more than 1024 characters back, and fails on the first such key that is required. |
| Scanner.TokenScanner.RollIndent | Godeps/_workspace/src/gopkg.in/yaml.v2/scannerc.go:937-961 | A deeper column in block context opens one level and inserts its start token at the given place; otherwise nothing changes. |
| Scanner.TokenScanner.UnrollIndent | Godeps/_workspace/src/gopkg.in/yaml.v2/scannerc.go:966-987 | The loop queues one BLOCK-END for every level beyond the column. |
| Scanner.TokenScanner.FetchValue | Godeps/_workspace/src/gopkg.in/yaml.v2/scannerc.go:1274-1336 | Both ways of reading ':' on the object with its array queue, as on values. |
| Scanner.TokenScanner.FetchNextToken | Godeps/_workspace/src/gopkg.in/yaml.v2/scannerc.go:665-838 | The dispatcher on the object, as on values; what it queues is stated by `FetchMakes`. |
| Scanner.TokenScanner.FetchBadNode | Godeps/_workspace/src/gopkg.in/yaml.v2/scannerc.go:1339-1433 | A node whose scan fails is refused only after its simple key has been saved. |
| Scanner.TokenScanner.FetchMoreTokens | Godeps/_workspace/src/gopkg.in/yaml.v2/scannerc.go:626-662 | The fetch loop on the object ends in the state of the loop on values. |
| EmitterSound.StateMachineAgrees | Godeps/_workspace/src/gopkg.in/yaml.v2/emitterc.go:211-269 | Every step of the emitter's state machine is decided by the grammar position alone, whatever the text-layer choices; a rejected event is one the grammar does not allow there, and no stack is popped empty. |
| EmitterSound.EmitterFollowsGrammar | Godeps/_workspace/src/gopkg.in/yaml.v2/emitterc.go:113-170 | Whatever is emitted, and whatever the text layer decides at each event: no crash, the flow level and the indentation stack count the entered open collections, a rejection means the events begin no word (or one had bad content), and an event outside the grammar is found out at most three events later. |
| EmitterSound.EmitterAcceptsWords | Godeps/_workspace/src/gopkg.in/yaml.v2/emitterc.go:113-170 | Every complete word with good contents is accepted, whatever the text layer decides at each event, and leaves the queue empty in the end state, with empty stacks. |
| EmitterSound.WordsDrain | Godeps/_workspace/src/gopkg.in/yaml.v2/emitterc.go:136-170 | The lookahead rule never asks for more events than the rest of a word has. |
| EmitterLevels.StepLevels | Godeps/_workspace/src/gopkg.in/yaml.v2/emitterc.go:196-208 | Every step of a reachable state keeps the saved levels and the current one those of the open collections (-1; at the root 0 for a block and one step for a flow collection; then one step more each, or the parent's level for an indentless sequence); a collection entered adds its level, one left drops it. |
| EmitterChoices.IndentlessIs | Godeps/_workspace/src/gopkg.in/yaml.v2/emitterc.go:578-582 | Below the root a block sequence stands at its parent's level exactly when the event grammar has it as a key or value of a mapping and the text layer asks for it. |
| EmitterChoices.EmittedInOrder | Godeps/_workspace/src/gopkg.in/yaml.v2/emitterc.go:113-133 | Over a run not rejected, every event emitted had acceptable contents when its turn came, events are emitted in the order given, and those held back are the last. |
| EmitterChoices.AskedIndent | Godeps/_workspace/src/gopkg.in/yaml.v2/emitterc.go:282-284 | A step of 2 to 9 columns is honoured at every event; any other is taken to be 2. |
| EmitterStyle.StepStyle | Godeps/_workspace/src/gopkg.in/yaml.v2/emitterc.go:707-738 | No block collection is ever open inside a flow collection or in canonical output, and a collection is opened in flow style exactly where it is inside one, asked for, empty, or the output canonical. |
| EmitterStyle.KeyStyle | Godeps/_workspace/src/gopkg.in/yaml.v2/emitterc.go:504-555 | A key is written as a simple one exactly where the text layer allows it, but for flow mappings in canonical output. |
| EmitterStyle.HeldBack | Godeps/_workspace/src/gopkg.in/yaml.v2/emitterc.go:136-170 | Exactly what is held back: a document start for one event, a sequence for two, a mapping for three, or up to its end if that comes first. |
| EmitterStyle.EmptinessKnown | Godeps/_workspace/src/gopkg.in/yaml.v2/emitterc.go:746-760 | An event is emitted only when the queue tells whether it opens an empty collection. |
| EmitterStyle.EmitterLayout | Godeps/_workspace/src/gopkg.in/yaml.v2/emitterc.go:113-269 | Over every run the levels and the styles are as said, whatever the text layer decides at each event. |
| Emitter.YamlEmitter.Emit | Godeps/_workspace/src/gopkg.in/yaml.v2/emitterc.go:113-133 | The object with its event queue does what the drain on values does, with the choices of each event's own step, and every scalar written stands at an indentation of at least one step. |
| Emitter.YamlEmitter.EmitScalar | Godeps/_workspace/src/gopkg.in/yaml.v2/emitterc.go:683-704 | The indentation in force while a scalar is written is one step deeper than its collection's and at least one step, and is restored after. |
| Emitter.YamlEmitter.ScalarsReadBack | Godeps/_workspace/src/gopkg.in/yaml.v2/emitterc.go:683-704 | Every scalar the emitter has written would come back from its double-quoted form, at the indentation it was written at. |
| Emitter.YamlEmitter.NeedMoreEvents | Godeps/_workspace/src/gopkg.in/yaml.v2/emitterc.go:136-170 | The lookahead loop decides as the function on values. |
| TreeBuilder.ParseInvertsFlatten | Godeps/_workspace/src/gopkg.in/yaml.v2/decode.go:105-184 | The recursive descent builds from a node's events exactly that node's tree and leaves the rest of the events. |
| TreeBuilder.TreeKeepsEvents | Godeps/_workspace/src/gopkg.in/yaml.v2/decode.go:126-184 | Flattening the built tree gives back the events consumed, but for what the nodes do not keep: styles, quoted-implicit marks, anchors, the tags and implicit marks of collections, and the versions, directives and implicit marks of documents; mapping nodes have an even number of children. |
| TreeBuilder.DocumentInverts | Godeps/_workspace/src/gopkg.in/yaml.v2/decode.go:134-145 | One document of a word, whatever follows, becomes one document node holding exactly its events. |
| TreeBuilder.ParseNeverPanics | Godeps/_workspace/src/gopkg.in/yaml.v2/decode.go:105-124 | On any events the grammar allows next, building a node ends without the unknown-event panic and consumes exactly one node. |
| TreeBuilder.DocumentNeverPanics | Godeps/_workspace/src/gopkg.in/yaml.v2/decode.go:105-145 | At a document start, on any events the grammar allows, the builder does not panic. |
| TreeBuilder.AnchoredIsLatest | Godeps/_workspace/src/gopkg.in/yaml.v2/decode.go:99-103 | A name refers to the last node of the document that carried it. |
| TreeBuilder.AnchorsStartAfresh | Godeps/_workspace/src/gopkg.in/yaml.v2/decode.go:134-137 | Once a document has started, a name found is one that a node of that document carries. |
| TreeBuilder.Builder.ParseMapping | Godeps/_workspace/src/gopkg.in/yaml.v2/decode.go:175-184 | The loop of the object with its current event, against the descent on values. |
| TreeBuilder.Builder.ParseDocument | Godeps/_workspace/src/gopkg.in/yaml.v2/decode.go:134-145 | The object's document node, with a fresh anchor table. |
| Pipeline.ParsedEventsEmit | Godeps/_workspace/src/gopkg.in/yaml.v2/emitterc.go:113-170 | Whatever tokens the parser reads to the end of the stream, if the text layer finds the content of every event acceptable the emitter accepts the events and is drained. |
| Pipeline.ParsedEventsBuild | Godeps/_workspace/src/gopkg.in/yaml.v2/decode.go:105-145 | The first document of every parsed stream becomes a tree with exactly that document's events. |
| Pipeline.ParsedDocumentDecodes | Godeps/_workspace/src/gopkg.in/yaml.v2/decode.go:134-146 | The anchor table made by the end of a parsed document names nodes of that document, and decoding its tree with them ends, refuses exactly the documents whose aliases unfold forever, and gives all others the value, or the first error, that the tree means. |
| Pipeline.PlainDocumentRoundTrip | Godeps/_workspace/src/gopkg.in/yaml.v2/decode.go:134-146 | From tokens to value and back: a parsed document without aliases, merges and keys that are not scalars decodes to a value from which its tree is rebuilt. |
| Pipeline.BrokenStreamsNeverPanic | Godeps/_workspace/src/gopkg.in/yaml.v2/decode.go:105-124 | Even where the parser later stops in an error, building a tree of what it said so far does not panic. |
| Decoder.DecodeSimulates | Godeps/_workspace/src/gopkg.in/yaml.v2/decode.go:277-322 | Decoding under the set of aliases being expanded and decoding under a budget of nested aliases agree whenever neither runs out. |
| Decoder.CycleCheckIsExact | Godeps/_workspace/src/gopkg.in/yaml.v2/decode.go:310-322 | Decoding ends on every tree and anchor table, and the alias check refuses exactly those whose aliases unfold forever; following as many nested aliases as there are anchors is always enough. |
| DecoderMeaning.DecodeIsMeaning | Godeps/_workspace/src/gopkg.in/yaml.v2/decode.go:277-322 | Decoding gives v exactly if v is what the tree means (a scalar its tag, text and implicit mark; a sequence its children's values in order; pair i of a mapping the values of children 2i and 2i+1; a merge the values of its mappings, last to first; an alias its anchor's value), and an error exactly if that is the first thing wrong with it. |
| DecoderMeaning.MeansDecodes | Godeps/_workspace/src/gopkg.in/yaml.v2/decode.go:478-568 | The relation between trees and values is the one that unfolding with a bound computes. |
| DecoderMeaning.FailsDecodes | Godeps/_workspace/src/gopkg.in/yaml.v2/decode.go:510-525 | The relation between trees and first errors is the one that unfolding with a bound computes. |
| DecoderMeaning.PlainRoundTrip | Godeps/_workspace/src/gopkg.in/yaml.v2/decode.go:277-322 | For trees without aliases and merges whose keys are scalars, rebuilding the tree from its value gives the tree. |
| Decoder.TreeDecoder.Unmarshal | Godeps/_workspace/src/gopkg.in/yaml.v2/decode.go:277-299 | The object decodes as the function does, which `DecodeIsMeaning` ties to what the tree means, ends by the measure of anchors not being expanded and size of the tree, and on success has restored its alias set. |
| Decoder.TreeDecoder.UnmarshalAlias | Godeps/_workspace/src/gopkg.in/yaml.v2/decode.go:310-322 | A name is marked while its node is expanded and unmarked after; an unknown name or one being expanded is an error. |
| Decoder.TreeDecoder.UnmarshalMerge | Godeps/_workspace/src/gopkg.in/yaml.v2/decode.go:652-679 | Merge sources are decoded last to first, and each must be a mapping or an alias of one. |
| Utf8.DecodeUtf8Exact | Godeps/_workspace/src/gopkg.in/yaml.v2/readerc.go:150-243 | A character the reader decodes from UTF-8 is a scalar value whose encoding is exactly the bytes taken: no overlong form, no surrogate. |
| Utf8.DecodeUtf8Inverts | Godeps/_workspace/src/gopkg.in/yaml.v2/readerc.go:150-243 | Every scalar value's UTF-8 encoding is decoded back to it, whatever follows. |
| Utf8.Decode16Exact | Godeps/_workspace/src/gopkg.in/yaml.v2/readerc.go:245-330 | A character decoded from UTF-16, in either byte order, is a scalar value whose encoding is exactly the bytes taken. |
| Utf8.Decode16Inverts | Godeps/_workspace/src/gopkg.in/yaml.v2/readerc.go:245-330 | Every scalar value's UTF-16 encoding, surrogate pairs included, is decoded back to it. |
| Utf8.StepWaits | Godeps/_workspace/src/gopkg.in/yaml.v2/readerc.go:186-195 | A character cut short at the end of the raw buffer is waited for, never taken for an error or another character. |
| Utf8.DecodingUnique | Godeps/_workspace/src/gopkg.in/yaml.v2/readerc.go:148-380 | What has been decoded of an encoded text is a prefix of its characters, and the bytes left encode the others. |
| Reader.BadIsUndecodable | Godeps/_workspace/src/gopkg.in/yaml.v2/readerc.go:150-352 | Where decoding fails, no text of allowed characters encodes to the source's bytes. |
| Reader.OneReading | Godeps/_workspace/src/gopkg.in/yaml.v2/readerc.go:91-394 | A source has at most one reading, so chunking and the order of refills cannot matter. |
| ByteMarks.MarkDecides | Godeps/_workspace/src/gopkg.in/yaml.v2/readerc.go:13-53 | A source has an encoding's mark selected, and skipped, exactly if it begins with U+FEFF as that encoding writes it; without any it is UTF-8 from its first byte. |
| Reader.ByteReader.Transcoded | Godeps/_workspace/src/gopkg.in/yaml.v2/readerc.go:91-394 | At the end of the text, what was taken and what is pending are the source's characters and one NUL; from UTF-8 the bytes that passed through the buffer are the source's own after its mark. |
| Reader.ByteReader.UpdateBuffer | Godeps/_workspace/src/gopkg.in/yaml.v2/readerc.go:91-394 | For every chunking by the read handler: on success enough characters are ready or the text has ended, what was unread is still in front, `unread` counts it, and the 1536-byte buffer is never overrun; a decoding failure means the source is undecodable. |
| Reader.ByteReader.DetermineEncoding | Godeps/_workspace/src/gopkg.in/yaml.v2/readerc.go:25-53 | The encoding chosen is that of the source's byte order mark, which is skipped, however few bytes arrive at a time. |
| Reader.ByteReader.UpdateRawBuffer | Godeps/_workspace/src/gopkg.in/yaml.v2/readerc.go:56-87 | Shifting and filling the 512-byte raw buffer loses and duplicates no byte. |
| Reader.ByteReader.ReadUtf8 | Godeps/_workspace/src/gopkg.in/yaml.v2/readerc.go:150-243 | The octet-by-octet loop computes the decoding step. |
| Reader.ByteReader.Skip | Godeps/_workspace/src/gopkg.in/yaml.v2/scannerc.go:491-496 | Moving by the width of the first byte takes exactly one character off what is pending. |
| QuotedRoundTrip.RoundTripIff | Godeps/_workspace/src/gopkg.in/yaml.v2/emitterc.go:1429-1548 | For every value of scalar characters, width, starting place, line break, indent, folding and unicode on or off: scanning the double-quoted form gives exactly the value and stops after the closing quote if and only if no folded line at the left margin begins with what reads as a document indicator; otherwise the scan is an error. |
| QuotedRoundTrip.RoundTrip | Godeps/_workspace/src/gopkg.in/yaml.v2/emitterc.go:1429-1548 | With an indent of at least 1, which `Emit` proves of every scalar, every value comes back. |
| QuotedRoundTrip.FoldRound | Godeps/_workspace/src/gopkg.in/yaml.v2/scannerc.go:2488-2540 | A line break, a margin and a non-blank character read as one space before that character. |
| QuotedFolds.GapFolds | Godeps/_workspace/src/gopkg.in/yaml.v2/scannerc.go:2488-2540 | White space with any number of line breaks between two characters: blanks around breaks are dropped, a break alone reads as a space, of several the first is dropped and the others kept, a separator of lines or paragraphs is always kept. |
| QuotedFolds.BlanksKept | Godeps/_workspace/src/gopkg.in/yaml.v2/scannerc.go:2494-2501 | Blanks within a line are kept as they are. |
| QuotedFolds.EscapedBreakFolds | Godeps/_workspace/src/gopkg.in/yaml.v2/scannerc.go:2355-2362 | After an escaped line break the break itself and the blanks go, and every further break is kept. |
| QuotedFolds.EscapeLetters | Godeps/_workspace/src/gopkg.in/yaml.v2/scannerc.go:2363-2420 | Each letter of the standard's table reads as its character, and after a backslash any other letter but x, u and U is refused. |
| QuotedFolds.CodeDigits | Godeps/_workspace/src/gopkg.in/yaml.v2/scannerc.go:2425-2442 | A character's code is read exactly if all its hexadecimal digits, of either case, are there. |
| QuotedFolds.EscapesAreScalar | Godeps/_workspace/src/gopkg.in/yaml.v2/scannerc.go:2441-2446 | A code of a surrogate or past the last character is refused. |
| QuotedFolds.IndicatorRefused | Godeps/_workspace/src/gopkg.in/yaml.v2/scannerc.go:2319-2331 | Exactly at the left margin, three dashes or three dots before white space or the end refuse the scalar. |
| QuotedFolds.ScalarCloses | Godeps/_workspace/src/gopkg.in/yaml.v2/scannerc.go:2333-2338 | A scalar that is read ends at a quote, and the text does not end before it. |
| QuotedRoundTrip.EscapeRound | Godeps/_workspace/src/gopkg.in/yaml.v2/scannerc.go:2363-2471 | The escape written for a character is read as that character, and consumed whole. |
| QuotedRoundTrip.PlaceKept | Godeps/_workspace/src/gopkg.in/yaml.v2/emitterc.go:1201-1219 | A fold inside a scalar always breaks the line: the emitter never believes it already stands at the indentation. |
| QuotedLayout.LayoutIs | Godeps/_workspace/src/gopkg.in/yaml.v2/emitterc.go:1429-1548 | Read off the text: a value is one piece per character between two quotes; a piece is the character itself, an escape that reads as it (for what is not printable, not ASCII without unicode, a break, a quote, a backslash, or anything after a leading byte order mark), or, for a lone inner space whose line is already past the preferred width, a line break and the margin. |
| QuotedLayout.ColumnTracks | Godeps/_workspace/src/gopkg.in/yaml.v2/emitterc.go:1429-1548 | The writer's column is the number of characters since the last line break of the text written. |
| QuotedLayout.QuotedAllowed | Godeps/_workspace/src/gopkg.in/yaml.v2/readerc.go:332-352 | Whatever the value, every character written is one the reader accepts. |
| QuotedLayout.TablesAgree | Godeps/_workspace/src/gopkg.in/yaml.v2/readerc.go:332-352 | The reader's table of characters is the emitter's of printable ones, with tab, CR, NEL, the byte order mark and the supplementary planes besides. |
| QuotedRoundTrip.NoMarginFails | Godeps/_workspace/src/gopkg.in/yaml.v2/scannerc.go:2319-2331 | With no indentation the round trip is false: a folded line can begin with what reads as a document indicator. |
| QuotedWriter.ScalarWriter.WriteDoubleQuoted | Godeps/_workspace/src/gopkg.in/yaml.v2/emitterc.go:1429-1548 | The bytes written, through the 128-byte buffer and its flushes, are the UTF-8 of the value's quoted form. |
| QuotedWriter.ScalarWriter.WriteIndent | Godeps/_workspace/src/gopkg.in/yaml.v2/emitterc.go:1201-1219 | A line break where one is due, then spaces up to the indentation. |
| QuotedWriter.ScalarWriter.Put | Godeps/_workspace/src/gopkg.in/yaml.v2/emitterc.go:16-24 | One byte is appended to the output, flushed or not. |
| QuotedWriter.ScalarWriter.PutBreak | Godeps/_workspace/src/gopkg.in/yaml.v2/emitterc.go:27-48 | The chosen line break is appended and the column starts over; two bytes always fit. |
| QuotedWriter.ScalarWriter.Flush | Godeps/_workspace/src/gopkg.in/yaml.v2/writerc.go:11-28 | Handing the buffer to the write handler leaves the output as it was. |
| QuotedWriter.Edges | Godeps/_workspace/src/gopkg.in/yaml.v2/emitterc.go:1520-1527 | The byte positions the writer tests for the ends of the value are those of its first and last characters. |
| CharClass.PrintableBytes | Godeps/_workspace/src/gopkg.in/yaml.v2/yamlprivateh.go:63-73 | The byte test for printable characters accepts exactly the printable characters of the standard's range the source lists. |
| CharClass.BreakBytes | Godeps/_workspace/src/gopkg.in/yaml.v2/yamlprivateh.go:102-108 | The byte test for line breaks accepts exactly CR, LF, NEL, LS and PS. |
| CharClass.BomBytes | Godeps/_workspace/src/gopkg.in/yaml.v2/yamlprivateh.go:81-83 | The test for a byte order mark looks at the start of the buffer, whatever the position. |
| QuotedScanner.ScalarScanner.ScanFlowScalar | Godeps/_workspace/src/gopkg.in/yaml.v2/scannerc.go:2304-2557 | The nested loops read what the definition on values reads, and stop where it stops. |
| QuotedScanner.ScalarScanner.ReadCode | Godeps/_workspace/src/gopkg.in/yaml.v2/scannerc.go:2425-2442 | The hexadecimal loop reads the number of the digits, or refuses. |
| HdrIndex.ComputeBitLen | Godeps/_workspace/src/github.com/codahale/hdrhistogram/hdr.go:500-520 | The unrolled shift loop computes the number of significant bits. |
| HdrIndex.SlotsAreClasses | Godeps/_workspace/src/github.com/codahale/hdrhistogram/hdr.go:366-412 | Two values share a count slot exactly when they share a class. |
| HdrIndex.ClassContainsValue | Godeps/_workspace/src/github.com/codahale/hdrhistogram/hdr.go:356-382 | Every value lies between its lowest and highest equivalent values. |
| HdrIndex.ValueFromIndexSlot | Godeps/_workspace/src/github.com/codahale/hdrhistogram/hdr.go:366-412 | The value of a used bucket position falls back into that position's slot. |
| HdrIndex.SlotsAreOnto | Godeps/_workspace/src/github.com/codahale/hdrhistogram/hdr.go:392-412 | Every slot number is the slot of its own value. |
| HdrIndex.SlotIsMonotone | Godeps/_workspace/src/github.com/codahale/hdrhistogram/hdr.go:392-412 | A larger value never falls into a lower slot. |
| HdrIndex.RecordableValues | Godeps/_workspace/src/github.com/codahale/hdrhistogram/hdr.go:46-96 | Exactly the values below 2^(unit + half + buckets) have a slot in the count array. |
| HdrIndex.SizeIsWidth | Godeps/_workspace/src/github.com/codahale/hdrhistogram/hdr.go:356-364 | The size computed for a value's class is its width. |
| HdrIndex.NewShape | Godeps/_workspace/src/github.com/codahale/hdrhistogram/hdr.go:46-96 | The shape chosen resolves 10^sigfigs with the smallest power of two that can, has the unit of the minimum, and the fewest buckets that reach the maximum. |
| HdrIndex.RangeIsRecordable | Godeps/_workspace/src/github.com/codahale/hdrhistogram/hdr.go:46-96 | Every value below the requested maximum can be recorded. |
| HdrIndex.PrecisionBound | Godeps/_workspace/src/github.com/codahale/hdrhistogram/hdr.go:46-96 | A class is no wider than the smallest tracked value, or else no wider than a 10^sigfigs-th part of every value in it. |
| Histogram.Hist.RecordValues | Godeps/_workspace/src/github.com/codahale/hdrhistogram/hdr.go:230-239 | A recordable value adds to exactly its own slot and to the total; another changes nothing and is refused. |
| Histogram.Hist.Merge | Godeps/_workspace/src/github.com/codahale/hdrhistogram/hdr.go:109-121 | The walk over recorded slots adds every count at its value's slot, and total plus dropped is conserved. |
| Histogram.MergeConserves | Godeps/_workspace/src/github.com/codahale/hdrhistogram/hdr.go:109-121 | Merging neither loses nor invents a count: what is not added is dropped and reported. |
| Histogram.MergeSameShape | Godeps/_workspace/src/github.com/codahale/hdrhistogram/hdr.go:109-121 | Between histograms of the same shape merging is pointwise addition. |
| HistogramMerge.MergeMoves | Godeps/_workspace/src/github.com/codahale/hdrhistogram/hdr.go:109-121 | Whatever the two shapes and the values recorded: merging counts each value of the histogram merged at the lowest value of its class, and drops exactly those whose lowest value cannot be recorded. |
| Histogram.Iter.Next | Godeps/_workspace/src/github.com/codahale/hdrhistogram/hdr.go:421-447 | The k-th step of the bucket walk reads count k and its value. |
| Histogram.Iter.NextRecorded | Godeps/_workspace/src/github.com/codahale/hdrhistogram/hdr.go:450-458 | The recorded walk stops at exactly the next non-empty slot, and ends only when all remaining slots are empty. |
| Histogram.Hist.ValueAtQuantile | Godeps/_workspace/src/github.com/codahale/hdrhistogram/hdr.go:242-259 | Whatever values were recorded, the result is the top of the class of the one at the rank of the quantile in sorted order; a rank below one gives the top of the lowest class, recorded or not, and an empty histogram gives 0. |
| Histogram.RankIsNearest | Godeps/_workspace/src/github.com/codahale/hdrhistogram/hdr.go:243-248 | For q from 0 to 100 the rank is the integer nearest to q percent of the total, a half counting up. |
| Histogram.RankFindsValue | Godeps/_workspace/src/github.com/codahale/hdrhistogram/hdr.go:242-259 | For every rank that class holds the rank-th smallest recorded value. |
| Histogram.CountAtPermutation | Godeps/_workspace/src/github.com/codahale/hdrhistogram/hdr.go:230-239 | The counts do not depend on the order of recording. |
| Window.RotateContent | Godeps/_workspace/src/github.com/codahale/hdrhistogram/window.go:41-45 | Rotation re-uses exactly the slot of the next index. |
| Window.WindowCounts | Godeps/_workspace/src/github.com/codahale/hdrhistogram/window.go:31-38 | The slots of the ring together count exactly the values of the last n epochs. |
| Window.Windowed.Record | Godeps/_workspace/src/github.com/codahale/hdrhistogram/window.go:41-45 | A recorded value goes to the current epoch; an unrecordable one changes nothing. |
| Window.Windowed.Rotate | Godeps/_workspace/src/github.com/codahale/hdrhistogram/window.go:41-45 | Rotation begins a new, empty epoch and forgets the oldest once the ring is full. |
| Window.Windowed.Merge | Godeps/_workspace/src/github.com/codahale/hdrhistogram/window.go:31-38 | After any sequence of records and rotations the merged counts are those of exactly the values recorded in the last n epochs. |
| TokenBucket.CallKeepsLevel | Godeps/_workspace/src/github.com/juju/ratelimit/ratelimit.go:156-172 | The level never exceeds the capacity, a grant takes exactly what it grants, and a refused request takes nothing. |
| TokenBucket.TakeIs | Godeps/_workspace/src/github.com/juju/ratelimit/ratelimit.go:205-226 | What a take does, in the bucket's arithmetic: what is there is granted at once and without a wait; more is granted for the first tick that pays for it, if that is soon enough, with exactly that wait; otherwise nothing is granted. |
| TokenBucket.TakeAvailableIs | Godeps/_workspace/src/github.com/juju/ratelimit/ratelimit.go:156-172 | `TakeAvailable` grants at once, without a wait, the smaller of what is asked and what is there. |
| TokenBucket.StartsFull | Godeps/_workspace/src/github.com/juju/ratelimit/ratelimit.go:81-98 | A new bucket grants up to its capacity at once, whenever it is first asked. |
| TokenBucket.WaitEndsAtUsableTick | Godeps/_workspace/src/github.com/juju/ratelimit/ratelimit.go:205-226 | A grant on credit promises a wait that ends exactly at the tick at which it becomes usable, within the maximum asked for. |
| TokenBucket.DebtPaidByPromise | Godeps/_workspace/src/github.com/juju/ratelimit/ratelimit.go:205-245 | With no later takes the bucket is out of debt by the promised tick; it is still in debt a tick earlier exactly when the take did not come to a full bucket whose tick was stale. |
| TokenBucket.RunWithinSupply | Godeps/_workspace/src/github.com/juju/ratelimit/ratelimit.go:205-245 | From any level, the tokens usable by a tick are at most what the bucket held and what was poured in, over every run with a clock that does not go back. |
| TokenBucket.Conformance | Godeps/_workspace/src/github.com/juju/ratelimit/ratelimit.go:205-245 | From the start, tokens usable by tick t never exceed capacity + quantum * t. |
| TokenBucket.WindowIff | Godeps/_workspace/src/github.com/juju/ratelimit/ratelimit.go:233-245 | Over a window that opens at any time, every run keeps to a full bucket and what is poured in from then on if and only if the bucket has room or its tick is current when the window opens; that is, unless it is full with a stale tick, which it then does not advance. |
| TokenBucket.WindowCounterexample | Godeps/_workspace/src/github.com/juju/ratelimit/ratelimit.go:233-239 | Concretely, a bucket left alone while full grants its capacity twice within one tick. |
| TokenBucket.Bucket.DoTake | Godeps/_workspace/src/github.com/juju/ratelimit/ratelimit.go:205-226 | The object's take returns the wait and leaves the level of the definition on values. |
| TokenBucket.Bucket.DoTakeAvailable | Godeps/_workspace/src/github.com/juju/ratelimit/ratelimit.go:156-172 | The object takes what is available, at most what is asked. |
| TokenBucket.Bucket.AdjustTo | Godeps/_workspace/src/github.com/juju/ratelimit/ratelimit.go:233-245 | Bringing the bucket up to date, skipped when it is full. |
| Store.RemovalSafeIff | loadbalancer/vulcand/vulcand.go:321-327 | Removing a resource leaves no dangling frontend exactly when no other resource's frontend uses its backend. |
| Store.BorrowedBackendDangles | loadbalancer/vulcand/vulcand.go:321-327 | A store without dangling frontends in which another frontend borrows the backend does end up dangling. |
| Store.CleanRunForgets | engine.go:170-219 | Whatever partial attempts left at the batch's ids, one clean run ends in the same store. |
| Store.ExactServers | loadbalancer/vulcand/vulcand.go:257-283 | After a clean batch a backend has exactly the servers of its last listing, none left over. |
| Store.UpdateIds | engine.go:129-142 | A fully successful update leaves the ids that were there or are new, less those only in the previous list. |
| Vulcand.ExtraRemoved | loadbalancer/vulcand/vulcand.go:257-283 | Upserting the wanted servers over those there and deleting the others leaves exactly the wanted ones. |
| Vulcand.LoadBalancer.UpsertBackend | loadbalancer/vulcand/vulcand.go:257-283 | Under failures with unknown effect every intermediate store differs in this backend only and never loses it; a success, even one that ignored errors of the listing or the deletions, leaves every wanted server at its address; it leaves exactly those if and only if none was stale, or the servers were listed and every deletion took effect. |
| Vulcand.KeepingIff | loadbalancer/vulcand/vulcand.go:265-281 | An upsert that leaves some stale servers in place gives all that were wanted, and exactly those if and only if it left none. |
| Vulcand.UnlistedServerStays | loadbalancer/vulcand/vulcand.go:265-269 | Concretely, when the listing fails a stale server survives an upsert that reports success. |
| Vulcand.LoadBalancer.UpsertFrontend | loadbalancer/vulcand/vulcand.go:241-255 | The frontend is put, or the call fails with or without effect. |
| Reconciler.Converges | engine.go:108-127 | Any number of failed attempts at a job followed by a clean one leave what the clean one alone would. |
| Reconciler.StillReady | engine.go:108-127 | A failed attempt leaves the store fit for the next one. |
| Reconciler.UpsertedGrants | engine.go:170-219 | Whatever was there, a clean batch leaves, for the last resource of each id, its settings, each server (the last listed under its id) at its address and no other, and its frontend with its rule. |
| Reconciler.Engine.Attempt | engine.go:204-218 | One attempt at a batch: at every call no frontend dangles and only the batch's ids are touched; a success gives everything the batch asks for, and, with distinct ids, leaves nothing stale exactly when every upsert of a backend was exact. |
| Reconciler.Engine.Commit | engine.go:108-127 | Retries keep safety at every call; once committed the store has all that one clean run would have given it, and stale servers of the batch at most; with distinct ids it is that store if and only if the last attempt's upserts were exact; once cancelled nothing is run and nil is returned; it runs out of time only if some call failed or the back-off refused an attempt. |
| Reconciler.Engine.AddResources | engine.go:170-219 | A build error touches nothing; otherwise the batch is committed as a whole, backends before frontends, and once committed every resource has its settings, its servers at their addresses and its frontend; without failing calls it is committed and no other server is left. |
| Reconciler.Engine.DeleteResources | engine.go:144-168 | Each resource's frontend goes before its backend; ids outside the list are untouched at every call, and so are those from the first resource on that cannot be built; once done exactly those of the list are gone. |
| Reconciler.Engine.UpdateResources | engine.go:129-142 | New resources are upserted, then those of the previous list not among them are removed; once both are done every new resource has its settings, its servers at their addresses and its frontend, and stale servers are left only where an upsert was not exact. |
| Reconciler.Engine.Update | engine.go:87-106 | At every call of an update no frontend dangles, ids of both lists never disappear and other ids are untouched; once done exactly the promised ids are left and every new resource has its settings, its servers at their addresses and its frontend, no other server if the upserts were exact; an update in which no call fails is done and exact. |
| Reconciler.RemovalIds | engine.go:130-136 | The removals are the ids of the previous list that are not in the new one. |
| Annotations.AnyOrder | kubernetes/resource.go:22-47 | Two orders of the same annotation map give the same plain annotations: the port's own value if there is one, else the general one. |
| Annotations.FoldedIs | kubernetes/resource.go:27-47 | The fold over the map computes that lookup, whichever entry comes first. |
| Annotations.BaseIs | kubernetes/resource.go:28-29 | The last element of a key is what stands after its last slash, slashes at its end not counted. |
| Annotations.OneSegmentDistinct | kubernetes/resource.go:28-30 | Keys with one path element after the key space have distinct last elements, which is all the results need. |
| Annotations.MiddlewareOrderIff | kubernetes/resource.go:36-40 | A `middleware.` annotation is the same in every order exactly when it is not given both for the port and without a port with different values. |
| Annotations.PortAnnotations | kubernetes/resource.go:22-47 | The loop over the map, in whatever order it comes, ends with the plain annotations of every other order. |
| Routes.PlacedAnyOrder | loadbalancer/vulcand/route.go:23-77 | In any order the parts end up in the slots their keys call for. |
| Routes.SameRoute | loadbalancer/vulcand/route.go:23-77 | Two orders of the same annotations of a port give the same route under no ingress, a default backend, or a rule with or without a host and a path. |
| Routes.SameTranslation | kubernetes/resource.go:22-108 | From the raw annotations of a service to the route of a port: every two orders of reading them, followed by every two orders of reading the result, give the same route under every ingress, when keys have one path element after the key space. |
| Routes.PrefixWins | loadbalancer/vulcand/route.go:57-72 | A usable prefix decides the path in every order and under every rule. |
| Routes.DeletePath | kubernetes/resource.go:461-471 | Deleting the path parts clears the path slot unless a prefix holds it. |
| Routes.NewParts | kubernetes/resource.go:67-108 | The loop over the annotations yields the parts of some order of the map. |
| Routes.NewRoute | loadbalancer/vulcand/route.go:23-77 | The loop over the parts fills the slots as the fold does; no parts mean any path. |
| Routes.ApplyIngress | kubernetes/resource.go:336-360 | A default backend drops every part; a rule replaces the host and the path it names. |
| Routes.Expression | kubernetes/resource.go:22-108 | The translation with its loops over both maps, from raw annotations through the port's own and the ingress to the route: with one-segment keys its result is that of every choice of the two orders. |
| Routes.Render | loadbalancer/vulcand/route.go:103-123 | The text is the host, path, methods and headers that are set, joined in that order. |
| RouteReading.TextReadsBack | loadbalancer/vulcand/route.go:103-140 | A route's text, read back by its punctuation, gives its host, path, methods and headers in this order, if no value or header name has a back quote. |
| RouteReading.BackQuoteSplits | loadbalancer/vulcand/route.go:125-140 | Concretely, with a back quote in a value two different routes have the same text. |
| RouteReading.ValueSays | kubernetes/resource.go:446-458 | A plain value becomes the matcher of its kind, and a value between bars, if it compiles, its regular form with all the bars at both ends taken off. |
| RouteReading.PrefixSays | loadbalancer/vulcand/route.go:67-71 | A prefix is a regular path with anything after it. |
| RouteReading.RuleSays | kubernetes/resource.go:344-360 | A rule's host is the route's host, and its path the route's path unless a prefix has it; nothing else changes. |
| RouteReading.DefaultIsAnyPath | kubernetes/resource.go:336-342 | As the default backend of an ingress a service gets every path. |
| RouteReading.BlockSays | kubernetes/resource.go:72-93 | The words of a headers or methods annotation are what stands between its white space; those that make a matcher make the parts, in order, and there are no others. |
| RouteReading.HeaderSays | kubernetes/resource.go:77-80 | A header's name stands before the first equality sign and its value after it; a word without one is passed over. |
| Semver.ParsePrints | Godeps/_workspace/src/github.com/blang/semver/semver.go:204-290 | Every accepted string is the print of its version, and that version is well formed. |
| Semver.PrintParses | Godeps/_workspace/src/github.com/blang/semver/semver.go:33-62 | Every well-formed version is the parse of its print. |
| Semver.WellFormedIs | Godeps/_workspace/src/github.com/blang/semver/semver.go:204-342 | The versions that can be read and written: 64-bit numbers, prerelease identifiers of ASCII letters, digits and dashes that are numbers or have a non-digit, and build identifiers of the same characters. |
| Semver.Punctuation | Godeps/_workspace/src/github.com/blang/semver/semver.go:33-62 | The punctuation of a version: dots, a dash before the prerelease, a plus before the build metadata. |
| Semver.Precedence | Godeps/_workspace/src/github.com/blang/semver/semver.go:113-162 | Comparison is antisymmetric and transitive, and zero exactly between versions equal up to build metadata. |
| Semver.CompareIsPrecedence | Godeps/_workspace/src/github.com/blang/semver/semver.go:113-162 | A version compares greater exactly if it is higher by the standard's words: major, minor, patch in turn, a release above its prereleases, the first differing identifier deciding, numbers by value and below others, others in ASCII order, and the longer list when all of the shorter agrees. |
| Semver.PreOrder | Godeps/_workspace/src/github.com/blang/semver/semver.go:344-366 | The order of prerelease identifiers: numbers before others, each kind in its own order, zero only between equals. |
| Semver.NumberExact | Godeps/_workspace/src/github.com/blang/semver/semver.go:223-234 | A number accepted is written back as it was. |
| Semver.CompareVersions | Godeps/_workspace/src/github.com/blang/semver/semver.go:113-162 | The loop over prerelease identifiers computes the order. |
| Semver.PrintVersion | Godeps/_workspace/src/github.com/blang/semver/semver.go:33-62 | The loops build the text. |
| Semver.ParseVersion | Godeps/_workspace/src/github.com/blang/semver/semver.go:204-290 | The loops accept and read what the definition accepts and reads. |

## Left out

- Reader.ByteReader.UpdateBuffer: for requests of up to 192 characters, the most the buffer can always hold; the callers ask for at most 8.
- Vulcand.LoadBalancer.UpsertFrontend: does not model the middlewares upserted after the frontend; their errors are only logged and nothing removes them short of deleting the frontend.
- Histogram.Hist.ValueAtQuantile: the rank is computed over the reals, without the rounding of floating point.
- Parser states `yaml_PARSE_BLOCK_NODE_OR_INDENTLESS_SEQUENCE_STATE` and `yaml_PARSE_FLOW_NODE_STATE`, which no code assigns; line and column marks of events.
- Scanner: the characters inside tokens (plain, block and single-quoted scalars, tags, anchors, directives); which lexeme starts where is arbitrary, so also texts no lexer would produce are covered.
- Emitter: the text written for anything but double-quoted scalars, UTF-16 output, and write errors.
- Decoder: conversion by reflection into Go values, tag resolution, MapSlice and struct targets; values here are generic.
- Reader: the offset kept for error messages; a read handler that returns no bytes and no error forever.
- Histogram: negative values, 64-bit overflow and ranges above 2^62, Max, Min, Mean, StdDev, corrected values, percentile iteration and snapshots.
- Token bucket: the mutex, `nextQuantum` and the floating-point rate search of NewBucketWithRate, and the sleeping in Wait.
- Reconciler: the lock, logging, Kubernetes caches and informers, the HTTP calls themselves, middlewares (upserted after a frontend with errors only logged), and the Traefik balancer, which ignores write errors and never removes servers.
- Engine.Add and Engine.Delete: each only gathers resources and calls AddResources or DeleteResources, which are modelled.
- Routes: compiling regular expressions, Unicode white space and upper-casing are parameters; NewRouteFromString; matching of ingress rules to service ports.
- Semver: non-ASCII input beyond being refused, Validate, and range expressions.

