# mwcomposerfromhell in Dafny

This project models the core of mwcomposerfromhell, a renderer that turns
a parsed MediaWiki document (the node tree of mwparserfromhell) into HTML.
It also models the readers for MediaWiki's parser-test files.

- **Rendering.** The visitor `WikicodeToHtmlComposer` is written twice.
  - Module `Rendering` gives it as functions from the composer's state to
    its new state. The state is the output so far, the stack of open tags
    and the list tags waiting to be opened.
  - Class `Composer.HtmlComposer` has the composer's fields and
    state-changing methods. Each method is proved to agree with those
    functions.
  - Lemmas in `VisitorFacts`, `StackFacts`, `RenderFacts` and
    `InvokeExample` state what the functions promise:
    - what each visitor writes: start and end tags, headings, links, the
      parameters of a template call, and the fallbacks of transclusions,
      `#invoke` calls and arguments;
    - how lists are opened and closed;
    - that an argument outside any template raises;
    - how `#invoke` parameters are renumbered;
    - that `{{#invoke:String|len|...}}` composes to `13`.
- **Lookup tables.**
  - `Templates`: the template store keyed by cleaned name.
  - `Modules`: the module store with `String.len`.
  - `Namespaces`: title normalisation and the article resolver.
  - `Params`: the `OrderedDict` of template parameters.
- **Test files.**
  - `Options`: the option-string parser `_parse_options`, written as
    functions and as the source's cursor loops. `OptionSteps` and
    `OptionExamples` hold the step lemmas and the repository's test inputs.
  - `TestFileReader`: the line reader that both test-file parsers share.
  - `ParserTests`: `MediaWikiParserTestsParser` (checked articles, parsed
    options).
  - `LegacyParser`: `MediaWikiParserTestCasesParser` (plain lists). A lemma
    relates the two parsers.

Python's `str` operations used by the core live in `Strings`. These are
`strip`, `lower`/`upper` on ASCII, `split`/`join`, `replace`, `re.sub(' +', ' ')`,
`int()` and `str()`. Python's `None` and exceptions become `Option` and
`Result`/`Outcome` values (`Outcomes`).

Where the documentation and the code differ, the code is followed:

- **Argument defaults.** The default of an argument (`{{{x|default}}}`) is
  rendered by a composer with the same context as the argument, as
  `visit_Argument` does (`self.clone(self._context)`). It is not rendered
  without a context.
- **`abc=def,"ghi jkl"`.** The docstring of `_parse_options` lists this form.
  After a comma the cursor stays on the comma, so the next value is always
  read unquoted. The example therefore yields `abc = [def, ghi]` and the
  flag `jkl`. `OptionExamples.QuotedAfterComma` shows this.
- **Empty locals.** A local that Python sets to `None` (`current_group`,
  `current_parameter`, `group_end`) is the empty string in the model.
  `ParserTests.ReaderOf` reads an empty group name as "outside any group".

## Model

| member | source | states |
|---|---|---|
| Rendering.CloseTo | mwcomposerfromhell/composer.py:90-98 | `_close_stack` only appends to the output and leaves the list queue alone |
| Rendering.CloseIndex | mwcomposerfromhell/composer.py:90-98 | where `_close_stack` stops: the last position of the tag when it is open (with no copy above it), otherwise the bottom of the stack |
| Rendering.CloseToSpec | mwcomposerfromhell/composer.py:90-98 | `_close_stack(tag)` pops and writes end tags for exactly the entries from the last `tag` up, innermost first, and keeps the stack below; an absent tag closes the whole stack |
| Composer.HtmlComposer.CloseStack | mwcomposerfromhell/composer.py:90-98 | the loop of `_close_stack` leaves the state `CloseTo` gives |
| Rendering.ListMarker | mwcomposerfromhell/composer.py:107-121 | a list marker queues its (list, item) pair at the end of the queue; the output only grows |
| StackFacts.ListMarkerQueues | mwcomposerfromhell/composer.py:107-121 | the queued pair is the marker's entry of `MARKUP_TO_LIST`, and the queue stays made of (list tag, item tag) pairs |
| Rendering.OpenTag | mwcomposerfromhell/composer.py:104-133 | opening a tag only appends output and keeps the list queue well formed |
| Rendering.RenderTag | mwcomposerfromhell/composer.py:104-143 | `visit_Tag` only appends output and keeps the list queue well formed; what it writes and how it leaves the stack is stated by `VisitorFacts.TagOpens`, `TagBalanced` and `TagSelfClosing` |
| VisitorFacts.AttributesWrite | mwcomposerfromhell/composer.py:128-129 | the attributes are written as their source texts, in order, and nothing else changes |
| VisitorFacts.TagOpens | mwcomposerfromhell/composer.py:123-133 | a tag that is not a list marker writes `<` + its stripped rendered name + its attributes + `>` and pushes that name; an error rendering the name escapes |
| VisitorFacts.CloseAbove | mwcomposerfromhell/composer.py:90-98 | `_close_stack(tag)` with no `tag` above position `p` closes the tag and everything above it, innermost first, and leaves the stack below `p` |
| VisitorFacts.TagBalanced | mwcomposerfromhell/composer.py:104-143 | a tag that does not close itself and whose rendered name is its source name: after its contents, it and every tag its contents left open are closed, and the stack is back to what it was before the tag |
| VisitorFacts.TagSelfClosing | mwcomposerfromhell/composer.py:139-143 | a self-closing tag without contents writes its start tag and stays on the stack |
| VisitorFacts.TagAroundText | mwcomposerfromhell/composer.py:104-143 | `<t attrs>c</t>` with plain text name and contents writes exactly that and leaves the stack as it was |
| VisitorFacts.ComposeTagAroundText | mwcomposerfromhell/composer.py:334-339 | composing such a tag gives exactly `<t attrs>c</t>` |
| VisitorFacts.ComposeSelfClosing | mwcomposerfromhell/composer.py:334-339 | composing a self-closing `<t attrs/>` gives `<t attrs></t>`: the tag stays open until `compose` closes the stack |
| Composer.HtmlComposer.StartTag | mwcomposerfromhell/composer.py:104-133 | the opening half of `visit_Tag` (queue a list, or render the name with a clone, strip it, write it with its attributes and push it) passes or fails exactly as `OpenTag` does, with its state |
| Composer.HtmlComposer.VisitTag | mwcomposerfromhell/composer.py:104-143 | `visit_Tag` agrees with `RenderTag`: contents visited when present, the stack closed down to the tag unless it closes itself |
| Rendering.Render | mwcomposerfromhell/composer.py:31-39 | every visitor only appends to the output and keeps the list queue made of (list, item) pairs |
| Rendering.RenderSeq | mwcomposerfromhell/composer.py:100-102 | `visit_Wikicode` only appends output and keeps the queue well formed |
| RenderFacts.RenderSeqAppend | mwcomposerfromhell/composer.py:100-102 | visiting `a + b` is visiting `a` and then `b` on the state `a` leaves (open tags and queued lists included); an error in `a` ends it |
| Composer.HtmlComposer.Visit | mwcomposerfromhell/composer.py:31-39 | the dispatch on node kind agrees with `Render`: it passes with the new state exactly when the rendering succeeds, else raises the rendering's error |
| Composer.HtmlComposer.VisitNodes | mwcomposerfromhell/composer.py:100-102 | the loop over child nodes agrees with `RenderSeq` |
| Composer.HtmlComposer.VisitHeading | mwcomposerfromhell/composer.py:150-153 | `visit_Heading` agrees with `Render` on a heading |
| VisitorFacts.HeadingWrites | mwcomposerfromhell/composer.py:150-153 | a title that writes `x` makes the heading write `<hN>x</hN>`, `N` its level |
| VisitorFacts.HeadingText | mwcomposerfromhell/composer.py:150-153 | a plain-text title is written between `<hN>` and `</hN>` |
| VisitorFacts.TextWrites | mwcomposerfromhell/composer.py:181-231 | text with nothing queued and no trailing newline is written as it is, the stack unchanged |
| VisitorFacts.FreshText | mwcomposerfromhell/composer.py:124-126 | a new composer renders a text node as its text, trailing newlines included |
| Rendering.Fresh | mwcomposerfromhell/composer.py:124-126 | `clone`, `visit`, `getvalue`: its behaviour is stated by `VisitorFacts.FreshText` and by `Composer.HtmlComposer.RenderFresh` |
| Rendering.RenderWikilink | mwcomposerfromhell/composer.py:155-166 | `visit_Wikilink` only appends output and keeps the queue well formed |
| Composer.HtmlComposer.VisitWikilink | mwcomposerfromhell/composer.py:155-166 | `visit_Wikilink` agrees with `RenderWikilink`, the title rendered by a clone for the URL |
| VisitorFacts.WikilinkWrites | mwcomposerfromhell/composer.py:155-166 | a link writes `<a href="base/quote(title)">`, then what its text (or, when empty, its title) writes, then `</a>` |
| VisitorFacts.WikilinkText | mwcomposerfromhell/composer.py:155-166 | `[[t]]` writes `<a href="base/quote(t)">t</a>`; `[[t\|d]]` with `d` non-empty shows `d` instead |
| Nodes.Truthy | mwcomposerfromhell/composer.py:165-174 | `node.text or node.title`: an optional node counts as given when it is present and its text is not empty; used by `RenderWikilink`, the external-link case of `Render` and `RenderTag` |
| Composer.HtmlComposer.VisitExternalLink | mwcomposerfromhell/composer.py:168-175 | `visit_ExternalLink` agrees with `Render`: the URL, then the title or else the URL |
| VisitorFacts.ExternalLinkWrites | mwcomposerfromhell/composer.py:168-175 | a link whose URL writes `u` writes `<a href="u">`, then what its caption (or, when empty, its URL) writes, then `</a>` |
| VisitorFacts.ExternalLinkText | mwcomposerfromhell/composer.py:168-175 | `[u]` writes `<a href="u">u</a>`; `[u c]` with `c` non-empty shows `c` |
| Composer.HtmlComposer.constructor | mwcomposerfromhell/composer.py:50-77 | the base URL with trailing slashes stripped, a new empty store for no store, a new store holding a given dictionary, a given store shared; empty output, stack and queue |
| Composer.HtmlComposer.Clone | mwcomposerfromhell/composer.py:79-84 | a new composer with the same base URL and the same store object, the given context and an empty state |
| Composer.HtmlComposer.Write | mwcomposerfromhell/composer.py:86-88 | appends to the output and changes nothing else |
| Composer.HtmlComposer.RenderFresh | mwcomposerfromhell/composer.py:124-126 | `clone`, `visit`, `getvalue` gives what a new composer's rendering gives |
| Rendering.CommonPrefix | mwcomposerfromhell/composer.py:192-199 | the first loop of `visit_Text` finds the length of the common prefix of the open lists and the queued lists: the prefixes agree and the next entries differ |
| Rendering.CloseEach | mwcomposerfromhell/composer.py:202-203 | closing each leftover open list only appends output |
| Rendering.OpenLists | mwcomposerfromhell/composer.py:206-208 | reopening pushes exactly the given list tags |
| Rendering.Flush | mwcomposerfromhell/composer.py:188-216 | the list flush empties the queue and only appends output |
| StackFacts.FlushOpensQueuedLists | mwcomposerfromhell/composer.py:188-216 | after the flush the open lists are exactly the queued lists in order, the innermost open tag is the item tag of the last queued list, and the queue is empty |
| StackFacts.CloseListsFrom | mwcomposerfromhell/composer.py:201-203 | closing the open lists from position `i` on, innermost first, leaves exactly the first `i` open |
| StackFacts.CloseInnermostList | mwcomposerfromhell/composer.py:90-98 | closing the innermost open list leaves the other open lists open |
| StackFacts.ReopenLists | mwcomposerfromhell/composer.py:205-213 | pushing the queued lists not yet open and then an item tag makes the open lists the queued ones |
| Rendering.TrailingNewlines | mwcomposerfromhell/composer.py:221 | the count of trailing newlines is positive exactly when the text ends in a newline |
| Rendering.CloseTrailing | mwcomposerfromhell/composer.py:223-231 | the newline loop only appends output and keeps the queue |
| StackFacts.CloseTrailingSpec | mwcomposerfromhell/composer.py:223-231 | the newline loop closes `min(newlines, k)` innermost tags, `k` being the run of list and item tags on top of the stack |
| StackFacts.TopItemsRun | mwcomposerfromhell/composer.py:186 | `TopItems` is the longest run of `TAGS_TO_CLOSE` on top of the stack |
| StackFacts.TopItems | mwcomposerfromhell/composer.py:223-231 | the run of closable tags on top never exceeds the stack |
| Rendering.RenderText | mwcomposerfromhell/composer.py:181-231 | `visit_Text` only appends output and leaves nothing queued |
| StackFacts.NewlinesClose | mwcomposerfromhell/composer.py:218-231 | with nothing queued, a text is written and closes one list or item tag per trailing newline until another tag; without a trailing newline the stack is unchanged |
| StackFacts.TextOpensLists | mwcomposerfromhell/composer.py:181-231 | a text after list markers, not ending in a newline, leaves the queued lists open with the last list's item innermost |
| Composer.HtmlComposer.FlushLists | mwcomposerfromhell/composer.py:188-216 | the three loops of the flush leave the state `Flush` gives |
| Composer.HtmlComposer.CloseLists | mwcomposerfromhell/composer.py:202-203 | the closing loop leaves the state `CloseEach` gives |
| Composer.HtmlComposer.MatchingLists | mwcomposerfromhell/composer.py:191-199 | the first loop of the flush counts how many open lists, from the outermost, match the queued lists: exactly `CommonPrefix` of the two |
| Composer.HtmlComposer.ReopenLists | mwcomposerfromhell/composer.py:206-208 | the reopening loop leaves the state `OpenLists` gives |
| Composer.HtmlComposer.VisitText | mwcomposerfromhell/composer.py:181-231 | `visit_Text` leaves the state `RenderText` gives |
| Rendering.RenderParams | mwcomposerfromhell/composer.py:243-258 | one rendered (name, value) pair per template parameter; its contents are stated by `VisitorFacts.RenderParamsEach` |
| Rendering.RenderParam | mwcomposerfromhell/composer.py:246-256 | the name is stripped, and the value is too when the name was written out |
| VisitorFacts.RenderParamsEach | mwcomposerfromhell/composer.py:242-258 | the parameters render exactly when each name and value renders with a new composer in the caller's context; pair `i` is then (the stripped name, the value stripped exactly when `showkey`); on failure the error is that of the first failing parameter |
| Composer.HtmlComposer.VisitParam | mwcomposerfromhell/composer.py:246-256 | one parameter, name stripped and value stripped only when the name was written out, as `RenderParam` gives |
| Composer.HtmlComposer.CollectParams | mwcomposerfromhell/composer.py:242-258 | the parameter loop stores the rendered pairs in order into a new `OrderedDict`, or raises the first parameter's error |
| Params.Get | mwcomposerfromhell/composer.py:315 | `d[k]` finds a value exactly when `k` is a key |
| Params.Put | mwcomposerfromhell/composer.py:258 | `d[k] = v`: `k` then holds `v`; an existing key keeps its position, a new key is appended |
| Params.PutOther | mwcomposerfromhell/composer.py:258 | assignment leaves the other keys' values alone |
| Params.PutDistinct | mwcomposerfromhell/composer.py:258 | assignment keeps the keys unique |
| Params.PutAbsent | mwcomposerfromhell/composer.py:258 | assigning a new key appends the pair |
| Params.FromPairsGet | mwcomposerfromhell/composer.py:242-258 | in the dictionary built from the pairs, each key holds the value of its last pair |
| Params.FromPairs | mwcomposerfromhell/composer.py:242-258 | the `OrderedDict` built by `d[k] = v` for each pair in turn: stated by `FromPairsGet`, `FromPairsKeys`, `FromPairsDistinct` and `FromPairsDistinctKeys` |
| Params.FromPairsKeys | mwcomposerfromhell/composer.py:242-258 | keys keep the order of their first assignment |
| Params.FromPairsDistinct | mwcomposerfromhell/composer.py:242-258 | the built dictionary has each key once |
| Params.FromPairsDistinctKeys | mwcomposerfromhell/composer.py:242-258 | pairs with distinct keys are kept as they are |
| Params.PopFirst | mwcomposerfromhell/composer.py:266 | `popitem(last=False)` returns the first item and the rest, and fails exactly on an empty dictionary |
| Rendering.RenderInvoke | mwcomposerfromhell/composer.py:261-290 | no parameters raise `KeyError`; an empty module name raises `IndexError`; an unknown module, or a function the module does not have, writes the call's source text; a found function writes its result on the parameters after the first, renumbered; only the output changes |
| Composer.HtmlComposer.VisitInvoke | mwcomposerfromhell/composer.py:261-290 | the `#invoke:` branch agrees with `RenderInvoke` |
| Rendering.RenumberKeys | mwcomposerfromhell/composer.py:279-288 | one renumbered pair per parameter |
| Rendering.RenumberKey | mwcomposerfromhell/composer.py:280-288 | a key that is not an integer is kept; an integer key `n` becomes a key that parses as `n - 1` |
| Rendering.Renumber | mwcomposerfromhell/composer.py:278-288 | the function's parameters form a dictionary, each key once; what they hold is `RenderFacts.RenumberPositional` and `RenumberNamed` |
| Composer.HtmlComposer.RenumberParams | mwcomposerfromhell/composer.py:279-288 | the renumbering loop builds `Renumber(context)` |
| RenderFacts.RenumberKeyIff | mwcomposerfromhell/composer.py:281-288 | a key becomes `str(n)` exactly when `int(key)` is `n + 1` |
| RenderFacts.RenumberKeyNamed | mwcomposerfromhell/composer.py:281-288 | a key that is not an integer becomes itself, and no other key becomes it |
| RenderFacts.LastValueRenumbered | mwcomposerfromhell/composer.py:279-288 | after renumbering, the last value under `str(n)` is the last value under `str(n + 1)` before |
| RenderFacts.RenumberPositional | mwcomposerfromhell/composer.py:274-290 | the function receives the call's parameter `n + 1` as parameter `n` |
| RenderFacts.RenumberNamed | mwcomposerfromhell/composer.py:274-290 | named parameters reach the function unchanged |
| RenderFacts.LastValueNamed | mwcomposerfromhell/composer.py:279-288 | renumbering leaves the last value of a non-integer key alone |
| Rendering.RenderTemplate | mwcomposerfromhell/composer.py:233-303 | `visit_Template` only appends output and keeps the queue well formed; its cases are `VisitorFacts.TemplateDispatch`, `TransclusionCases` and the ensures of `RenderInvoke` |
| VisitorFacts.TemplateDispatch | mwcomposerfromhell/composer.py:233-261 | an error rendering the name or a parameter escapes; otherwise the stripped name chooses `#invoke` or transclusion, with the parameters as a dictionary in which a later duplicate wins |
| VisitorFacts.TemplateTranscludes | mwcomposerfromhell/composer.py:292-303 | a stored template is rendered by a new composer whose context is the call's parameters, and its output written |
| VisitorFacts.TemplateMissing | mwcomposerfromhell/composer.py:292-298 | a template the store does not hold writes the call's source text |
| Composer.HtmlComposer.VisitTemplate | mwcomposerfromhell/composer.py:233-303 | `visit_Template` agrees with `RenderTemplate` |
| Rendering.RenderTransclusion | mwcomposerfromhell/composer.py:293-303 | only the output changes, and it only grows; the stack and the queue are left alone |
| VisitorFacts.TransclusionCases | mwcomposerfromhell/composer.py:293-303 | an empty name raises `IndexError`; a name whose cleaned form is not stored writes the call's source text; a stored body is rendered by a new composer with the call's parameters as context and its output written; too deep a nesting raises |
| Composer.HtmlComposer.VisitTransclusion | mwcomposerfromhell/composer.py:293-303 | the template branch agrees with `RenderTransclusion`, the body rendered in a clone whose context is the call's parameters |
| Rendering.RenderArgument | mwcomposerfromhell/composer.py:305-328 | `visit_Argument` only appends output and keeps the queue well formed; its cases are `VisitorFacts.ArgumentCases` |
| VisitorFacts.ArgumentCases | mwcomposerfromhell/composer.py:305-328 | an error rendering the name escapes; with no context the lookup raises `TypeError`; otherwise the value under the stripped rendered name is written, else the default rendered by a new composer in the same context, else the argument's source text |
| Composer.HtmlComposer.VisitArgument | mwcomposerfromhell/composer.py:305-328 | `visit_Argument` agrees with `RenderArgument`: the context's value, else the rendered default, else the source text |
| RenderFacts.ArgumentNeedsTemplate | mwcomposerfromhell/composer.py:314-315 | with no context an argument always fails, and it fails with the `TypeError` unless its name already failed |
| RenderFacts.TopLevelArgumentFails | mwcomposerfromhell/composer.py:305-316 | a node list with an argument at its top level cannot be visited without a context |
| RenderFacts.ComposeTopLevelArgument | mwcomposerfromhell/composer.py:334-339 | `compose` of a document with a top-level argument raises |
| Composer.HtmlComposer.Compose | mwcomposerfromhell/composer.py:334-339 | `compose` passes exactly when the rendering succeeds, then writes an end tag per open tag, innermost first, without popping; on a new composer its output is `Rendering.Compose` |
| Composer.HtmlComposer.CloseAll | mwcomposerfromhell/composer.py:337-339 | the final loop writes the end tags of the whole stack, innermost first, and leaves the stack as it is |
| Rendering.Compose | mwcomposerfromhell/composer.py:334-339 | `compose` passes exactly when the visit does; its output extends the visit's output, and is that output when no tag was left open |
| InvokeExample.InvokeLenPositional | tests/test_modules.py:6-9 | `{{#invoke:String\|len\|target_string}}` composes to `13` |
| InvokeExample.InvokeLenNamed | tests/test_modules.py:12-15 | `{{#invoke:String\|len\|s=target_string}}` composes to `13` |
| InvokeExample.InvokeString | mwcomposerfromhell/composer.py:261-290 | an `#invoke` of `String` whose first parameter names `len` composes to `len` of the renumbered remaining parameters |
| InvokeExample.ComposeWritten | mwcomposerfromhell/composer.py:334-339 | a node that only writes `s` composes to `s` |
| Templates.CleanName | mwcomposerfromhell/templates.py:21-23 | the first character lower-cased (so not an ASCII capital) and the rest kept; the empty name fails with `IndexError` |
| Templates.CleanNameIdempotent | mwcomposerfromhell/templates.py:21-23 | cleaning twice is cleaning once |
| Templates.CleanNameFirstLetter | mwcomposerfromhell/templates.py:21-23 | names differing only in the case of the first letter clean alike |
| Templates.UpperKeyUnreachable | mwcomposerfromhell/templates.py:13-26 | a key given to the constructor that starts with a capital can never be looked up |
| Templates.Lookup | mwcomposerfromhell/templates.py:25-26 | `store[key]` finds a value exactly when the cleaned key is stored, and returns it; an empty key fails |
| Templates.LookupAfterStore | mwcomposerfromhell/templates.py:25-30 | after `store[key] = v`, every name cleaning like `key` finds `v` and every other name finds what it found before |
| Templates.TemplateStore.Empty | mwcomposerfromhell/templates.py:13-19 | `TemplateStore()` holds nothing |
| Templates.TemplateStore.constructor | mwcomposerfromhell/templates.py:13-19 | `TemplateStore(templates)` keeps the given map, keys uncleaned |
| Templates.TemplateStore.Get | mwcomposerfromhell/templates.py:25-26 | `__getitem__` is `Lookup` on the store's map |
| Templates.TemplateStore.Set | mwcomposerfromhell/templates.py:28-30 | `__setitem__` stores under the cleaned key and returns the value; an empty key fails and changes nothing |
| Modules.FindModule | mwcomposerfromhell/modules/__init__.py:18-27 | a module is found exactly when the lower-first or the upper-first spelling is installed; the lower-first spelling wins, else the upper-first one is taken |
| Modules.GetFunction | mwcomposerfromhell/modules/__init__.py:15-35 | `get_function` fails with `IndexError` exactly for an empty module name; with `UnknownModule` when no spelling is installed; otherwise it succeeds exactly when the module found has the function, and returns it |
| Modules.GetFunctionFirstLetter | mwcomposerfromhell/modules/__init__.py:16-20 | module names differing in the case of the first letter reach the same function |
| Modules.InstalledLen | mwcomposerfromhell/modules/__init__.py:15-35 | `string\|len` and `String\|len` reach `len`; the registry holds no other function of that module |
| Modules.LenArgument | mwcomposerfromhell/modules/string.py:17-21 | the string measured is `context['s']`, else `context['1']`, else empty |
| Modules.Len | mwcomposerfromhell/modules/string.py:17-22 | `len` returns the decimal form of that string's length (it parses back to the length) |
| Modules.Call | mwcomposerfromhell/composer.py:290 | `function(function_context)`: the one installed function is `len`, whose result is stated by `Len` and `LenCases` |
| Modules.LenCases | mwcomposerfromhell/modules/string.py:17-22 | `s` wins over `1`, and with neither the result is `"0"` |
| Namespaces.NormalizeSpaces | mwcomposerfromhell/namespace.py:29-36 | no underscore and no double space remains, and only the empty key normalises to empty |
| Namespaces.NormalizeSpacesNoStrip | mwcomposerfromhell/namespace.py:29-36 | the result is the collapse of the key with underscores turned to spaces: the final `strip('_')` never removes anything |
| Namespaces.NormalizeSpacesFixed | mwcomposerfromhell/namespace.py:29-36 | a key without underscores or double spaces is already normal |
| Namespaces.NormalizeSpacesIdempotent | mwcomposerfromhell/namespace.py:29-36 | normalising twice is normalising once |
| Namespaces.NormalizeTitle | mwcomposerfromhell/namespace.py:47-52 | empty stays empty; otherwise the first character is the upper case of the space-normalised key's first character and the rest is the space-normalised rest |
| Namespaces.NormalizeTitleIdempotent | mwcomposerfromhell/namespace.py:47-52 | normalising a title twice is normalising it once |
| Namespaces.NormalizeTitleFirstLetter | mwcomposerfromhell/namespace.py:47-52 | titles differing only in the case of their first letter normalise alike |
| Namespaces.NormalizeTitleOfNormal | mwcomposerfromhell/namespace.py:47-52 | a title already free of underscores and double spaces only has its first letter upper-cased |
| Namespaces.NormalizeNamespace | mwcomposerfromhell/namespace.py:39-44 | empty stays empty; otherwise the first character is the upper case of the space-normalised key's first character and the rest is the space-normalised rest lower-cased |
| Namespaces.NormalizeNamespaceIdempotent | mwcomposerfromhell/namespace.py:39-44 | normalising a namespace twice is normalising it once |
| Namespaces.NormalizeNamespaceIgnoresCase | mwcomposerfromhell/namespace.py:39-44 | namespace names differing only in ASCII case normalise alike |
| Namespaces.NormalizeNamespaceLower | mwcomposerfromhell/namespace.py:39-44 | lower-casing first does not change the normalised namespace |
| Namespaces.CanonicalTitle.FullTitle | mwcomposerfromhell/namespace.py:16-21 | the bare title in the main namespace; otherwise one character longer than namespace and title together (the colon, as `FullTitleSplit` shows) |
| Namespaces.CanonicalTitle.Link | mwcomposerfromhell/namespace.py:23-26 | the full title with no space left, same length |
| Namespaces.FullTitleSplit | mwcomposerfromhell/namespace.py:16-21 | a full title splits at its first colon into the namespace and the title's parts |
| Namespaces.LinkRoundTrip | mwcomposerfromhell/namespace.py:23-26 | putting spaces back for underscores turns a link into its full title |
| Namespaces.CanonicalNamespace | mwcomposerfromhell/namespace.py:191-194 | the registered spelling of the normalised namespace, else the namespace as given |
| Namespaces.CleanTitle | mwcomposerfromhell/namespace.py:144-149 | the cleaned title has no underscore, no whitespace at either end, and a colon only if the input had one |
| Namespaces.Pieces | mwcomposerfromhell/namespace.py:151-181 | the interwiki piece never holds a colon |
| Namespaces.CanonicalizeParts | mwcomposerfromhell/namespace.py:183-196 | the interwiki prefix is stripped and colon-free, and the title is normalised |
| Namespaces.CanonicalizeNoColon | mwcomposerfromhell/namespace.py:177-181 | a title without colons is a page of the default namespace, with no interwiki prefix |
| Namespaces.PiecesNoColon | mwcomposerfromhell/namespace.py:177-181 | without colons the pieces are (no interwiki, default namespace, whole title) |
| Namespaces.PiecesNamespace | mwcomposerfromhell/namespace.py:156-176 | `ns:t` with `ns` non-empty and colon-free is (no interwiki, `ns`, `t`), whatever colons `t` holds |
| Namespaces.PiecesInterwiki | mwcomposerfromhell/namespace.py:165-168 | `:iw:t` with colon-free parts is (`iw`, the default namespace, `t`) |
| Namespaces.PiecesInterwikiNamespace | mwcomposerfromhell/namespace.py:156-164 | `:iw:ns:t` with `iw` and `ns` colon-free is (`iw`, `ns`, `t`), whatever colons `t` holds |
| Namespaces.Canonicalize | mwcomposerfromhell/namespace.py:132-196 | `canonicalize_title` after decoding: stated by `CanonicalizeParts`, `CanonicalizeNoColon` and `CanonicalizeLink` |
| Namespaces.CleanTitleFixed | mwcomposerfromhell/namespace.py:144-149 | an already clean title is left alone |
| Namespaces.CleanFullTitle | mwcomposerfromhell/namespace.py:144-149 | the full title of plain parts is already clean |
| Namespaces.CleanLink | mwcomposerfromhell/namespace.py:144-149 | cleaning the link of a title made of plain parts gives its full title |
| Namespaces.PiecesFullTitle | mwcomposerfromhell/namespace.py:173-176 | the full title of plain parts splits into its namespace and title |
| Namespaces.CanonicalizeLink | mwcomposerfromhell/namespace.py:132-196 | canonicalising the link of a canonical title gives back that title |
| Namespaces.NormalizedItems | mwcomposerfromhell/namespace.py:63-70 | the constructor's map has exactly the normalised names as keys |
| Namespaces.NormalizedItemsLast | mwcomposerfromhell/namespace.py:63-70 | a name holds the article of the last item that normalises to it |
| Namespaces.Namespace.constructor | mwcomposerfromhell/namespace.py:63-70 | articles stored under their normalised names |
| Namespaces.Namespace.Get | mwcomposerfromhell/namespace.py:72-73 | an article is found exactly when its normalised key is stored |
| Namespaces.Namespace.Set | mwcomposerfromhell/namespace.py:75-77 | stores under the normalised key and returns the value, which is then found |
| Namespaces.LookupNormalized | mwcomposerfromhell/namespace.py:72-77 | after storing, every spelling with the same normalised title finds the value |
| Namespaces.Resolve | mwcomposerfromhell/namespace.py:127-130 | a missing namespace or title raises `ArticleNotFound` carrying the canonical title |
| Namespaces.ResolveFound | mwcomposerfromhell/namespace.py:118-130 | an article is found exactly when its canonical namespace is a table holding its normalised title |
| Namespaces.UnnormalizedNamespaceMisses | mwcomposerfromhell/namespace.py:125-130 | the tables are keyed by normalised names while the lookup uses the registered spelling: a spelling that is not normal is never found |
| Namespaces.ArticleResolver.constructor | mwcomposerfromhell/namespace.py:81-87 | no namespaces registered |
| Namespaces.ArticleResolver.AddNamespace | mwcomposerfromhell/namespace.py:89-91 | both maps updated under the normalised name, keeping every key normal |
| Namespaces.ArticleResolver.CanonicalizeTitle | mwcomposerfromhell/namespace.py:132-196 | `canonicalize_title` on the decoded title with the registered spellings |
| Namespaces.ArticleResolver.GetArticle | mwcomposerfromhell/namespace.py:118-130 | `get_article` is `Resolve` of the canonical title |
| Namespaces.ArticleResolver.KeysNormalized | mwcomposerfromhell/namespace.py:89-91 | every registered key is in normalised form |
| Strings.LowerAllIdempotent | mwcomposerfromhell/parser_tests_parser.py:219 | lower-casing twice is lower-casing once |
| Strings.StripCharsIdempotent | mwcomposerfromhell/namespace.py:36 | stripping twice is stripping once |
| Strings.LStripKeeps | mwcomposerfromhell/composer.py:58 | what `lstrip` keeps is a suffix not starting with a stripped character |
| Strings.RStripKeeps | mwcomposerfromhell/composer.py:58 | what `rstrip` keeps is a prefix not ending with a stripped character |
| Strings.LStripRemoves | mwcomposerfromhell/composer.py:126 | what `lstrip` removes is made of stripped characters |
| Strings.RStripRemoves | mwcomposerfromhell/composer.py:58 | what `rstrip` removes is made of stripped characters |
| Strings.CollapseSpaces | mwcomposerfromhell/namespace.py:34 | no double space remains, the first character and the non-space characters are kept |
| Strings.CollapseSpacesNoOp | mwcomposerfromhell/namespace.py:34 | a string without double spaces is left alone |
| Strings.ReplaceChar | mwcomposerfromhell/namespace.py:32 | every occurrence of the character is replaced, nothing else changes |
| Strings.Split | mwcomposerfromhell/namespace.py:152 | at least one part, none containing the separator |
| Strings.JoinSplit | mwcomposerfromhell/namespace.py:152-164 | joining the parts of a split gives back the string |
| Strings.SplitJoin | mwcomposerfromhell/namespace.py:152-164 | splitting the join of separator-free parts gives back the parts |
| Strings.NatToDecimal | mwcomposerfromhell/composer.py:288 | `str(n)` is a non-empty run of digits |
| Strings.IntDecimalRoundTrip | mwcomposerfromhell/composer.py:281-288 | `int(str(i)) == i` for every integer |
| Strings.ParseInt | mwcomposerfromhell/composer.py:281-283 | `int(key)`: stated by `IntDecimalRoundTrip`, `ParseDigits` and `ParseNegative` |
| Strings.ParseDigits | mwcomposerfromhell/composer.py:281-283 | a run of digits parses to its value |
| Strings.ParseNegative | mwcomposerfromhell/composer.py:281-283 | a minus sign and a run of digits parse to minus its value |
| Strings.Strip | mwcomposerfromhell/composer.py:126 | `strip()` leaves no whitespace at either end and keeps a string that has none there |
| Strings.StripCharsEnds | mwcomposerfromhell/namespace.py:36 | `strip(cs)` leaves no character of `cs` at either end |
| Strings.Lower | mwcomposerfromhell/templates.py:23 | `lower()` of one character leaves no capital and changes exactly the ASCII capitals |
| Strings.Upper | mwcomposerfromhell/namespace.py:52 | `upper()` of one character leaves no lower-case letter and changes exactly the ASCII lower-case letters |
| Strings.LowerAll | mwcomposerfromhell/parser_tests_parser.py:219 | `lower()` of a string lower-cases each character in place |
| Strings.LStrip | mwcomposerfromhell/composer.py:126 | stripping never lengthens a string |
| Strings.RStrip | mwcomposerfromhell/composer.py:58 | stripping never lengthens a string |
| Strings.IsSpaceWhitespace | mwcomposerfromhell/composer.py:126 | the whitespace test agrees with the set `strip()` removes |
| Strings.SplitNoSep | mwcomposerfromhell/namespace.py:152 | a string without the separator splits into itself |
| Options.SkipSpaces | mwcomposerfromhell/parser_tests_parser.py:10 | `\s*` stops at the first non-whitespace character |
| Options.SkipSpacesRun | mwcomposerfromhell/parser_tests_parser.py:10 | what `\s*` skips is whitespace |
| Options.SkipWord | mwcomposerfromhell/parser_tests_parser.py:10 | `[\w-]+` stops at the first other character |
| Options.SkipWordRun | mwcomposerfromhell/parser_tests_parser.py:10 | what `[\w-]+` skips is word characters |
| Options.FirstWord | mwcomposerfromhell/parser_tests_parser.py:39-42 | the first word character at or after the cursor, if any |
| Options.QuotedAt | mwcomposerfromhell/parser_tests_parser.py:11 | a quoted match at a position ends after it |
| Options.LinkAt | mwcomposerfromhell/parser_tests_parser.py:14 | a link match at a position ends after it |
| Options.UnquotedAt | mwcomposerfromhell/parser_tests_parser.py:10 | an unquoted match at a position ends after it and is a token |
| Options.At | mwcomposerfromhell/parser_tests_parser.py:10-14 | a match of any pattern at a position ends after it |
| Options.Search | mwcomposerfromhell/parser_tests_parser.py:39 | `pattern.search` moves the cursor forward and an unquoted match is a token |
| Options.SearchLeftmost | mwcomposerfromhell/parser_tests_parser.py:10-14 | the search returns the match at the first position that matches |
| Options.UnquotedIsFirstWord | mwcomposerfromhell/parser_tests_parser.py:10 | an unquoted match is the maximal word at the first word character, the cursor past it and its trailing whitespace |
| Options.QuotedValue | mwcomposerfromhell/parser_tests_parser.py:66-72 | at a quote, the value is the text up to the next quote, and it fails exactly when there is none |
| Options.NoQuoteNoMatch | mwcomposerfromhell/parser_tests_parser.py:68-70 | with no closing quote left the quoted pattern matches nowhere |
| Options.LinkValue | mwcomposerfromhell/parser_tests_parser.py:75-80 | at `[[`, the value is the inner text up to `]]` |
| Options.UnmatchedLinkIff | mwcomposerfromhell/parser_tests_parser.py:74-78 | a value starting with `[` fails with "Unmatched link." exactly when the link pattern matches at no position from there on |
| Options.NoCloseNoLink | mwcomposerfromhell/parser_tests_parser.py:76-78 | with no `]` left the link pattern matches nowhere |
| Options.UnmatchedQuoteIff | mwcomposerfromhell/parser_tests_parser.py:66-70 | a value starting with `"` fails with "Unmatched quote." exactly when no quote closes it |
| Options.SearchNone | mwcomposerfromhell/parser_tests_parser.py:68-78 | `pattern.search` finds nothing exactly when the pattern matches at no position from the cursor on |
| Options.NoWordNoMatch | mwcomposerfromhell/parser_tests_parser.py:116-119 | with no `[\w-]` character left the unquoted pattern matches nowhere |
| Options.FirstWordNone | mwcomposerfromhell/parser_tests_parser.py:116-119 | no word character is found exactly when none is left |
| Options.ExpectedValueIff | mwcomposerfromhell/parser_tests_parser.py:114-119 | a value starting with none of `"`, `[`, `{` fails with "Expected a value." exactly when no word character follows |
| Options.ScanBraces | mwcomposerfromhell/parser_tests_parser.py:83-107 | the brace loop returns the index of the balancing brace, or fails when the braces never balance |
| Options.Closing | mwcomposerfromhell/parser_tests_parser.py:92-107 | the first index at which the brace count is back to zero, and none before it |
| Options.BraceEndCloses | mwcomposerfromhell/parser_tests_parser.py:89-107 | the balancing brace is a `}` outside any string, after the opening one |
| Options.ScanPositive | mwcomposerfromhell/parser_tests_parser.py:92-107 | until the braces balance the count stays at least one |
| Options.ValueAt | mwcomposerfromhell/parser_tests_parser.py:61-121 | each value moves the cursor forward; its failures are stated by `UnmatchedQuoteIff`, `UnmatchedLinkIff`, `ExpectedValueIff` and, for braces, `ScanBraces` and `Closing` |
| Options.ReadValue | mwcomposerfromhell/parser_tests_parser.py:61-121 | the body of the inner loop, chosen by the first character, is `ValueAt` |
| Options.ValuesFrom | mwcomposerfromhell/parser_tests_parser.py:59-125 | the inner loop appends at least one value and moves the cursor forward; its failures are stated by `ValuesAtEnd` and `TrailingComma` |
| Options.ValuesAtEnd | mwcomposerfromhell/parser_tests_parser.py:61-63 | `=` with nothing after it fails with "Unexpected end of string" |
| Options.TrailingComma | mwcomposerfromhell/parser_tests_parser.py:116-125 | a comma with no word character after it fails with "Expected a value." |
| Options.ValuesStep | mwcomposerfromhell/parser_tests_parser.py:123-125 | values go on exactly while a comma follows |
| Options.ReadValues | mwcomposerfromhell/parser_tests_parser.py:57-125 | the inner loop is `ValuesFrom` |
| Options.NextOption | mwcomposerfromhell/parser_tests_parser.py:38-127 | a key found is a token with a flag or at least one value, and the cursor moves |
| Options.AfterKey | mwcomposerfromhell/parser_tests_parser.py:48-127 | the option is the key found, with a flag or at least one value |
| Options.AfterKeyFlag | mwcomposerfromhell/parser_tests_parser.py:48-51 | a key not followed by `=` is `True` |
| Options.AfterKeyValues | mwcomposerfromhell/parser_tests_parser.py:53-127 | a key followed by `=` takes the values read after it |
| Options.AfterKeyFails | mwcomposerfromhell/parser_tests_parser.py:59-121 | a failing value fails the whole parse |
| Options.ReadOption | mwcomposerfromhell/parser_tests_parser.py:37-127 | one round of the outer loop is `NextOption` |
| Options.ParseOptions | mwcomposerfromhell/parser_tests_parser.py:17-129 | the loops of `_parse_options` compute `OptionsOf` |
| Options.OptionsOf | mwcomposerfromhell/parser_tests_parser.py:17-129 | `_parse_options` as a function: stated by `OptionsWellFormed`, `OptionsFromOverlay` and the examples of `OptionExamples` |
| Options.OptionsFrom | mwcomposerfromhell/parser_tests_parser.py:37-127 | the `while pos < options_len` loop from a cursor: stated by `OptionsFromWellFormed`, `OptionsFromOverlay`, `OptionSteps.OptionStep` and `OptionSteps.NoKeysLeft` |
| Options.OptionsFromWellFormed | mwcomposerfromhell/parser_tests_parser.py:37-127 | the loop keeps the keys already found and adds only well-formed options |
| Options.OptionsWellFormed | mwcomposerfromhell/parser_tests_parser.py:17-129 | every key returned is a `[\w-]+` token with `True` or a non-empty list |
| Options.OptionsFromOverlay | mwcomposerfromhell/parser_tests_parser.py:50-127 | a key met again keeps the value of its last occurrence |
| OptionSteps.FlagOption | mwcomposerfromhell/parser_tests_parser.py:45-51 | a key found with no `=` after it is a flag |
| OptionSteps.ValuesOption | mwcomposerfromhell/parser_tests_parser.py:53-127 | a key found with `=` after it takes the values read after the `=` |
| OptionSteps.OptionStep | mwcomposerfromhell/parser_tests_parser.py:37-127 | one round adds its option and the loop goes on from the new cursor |
| OptionSteps.NoKeysLeft | mwcomposerfromhell/parser_tests_parser.py:39-42 | with no word character left the loop ends with what it has |
| OptionSteps.FailingOption | mwcomposerfromhell/parser_tests_parser.py:48-127 | a key with `=` whose values fail makes the round and the whole parse fail with that error |
| OptionSteps.LastWordValue | mwcomposerfromhell/parser_tests_parser.py:116-125 | an unquoted value with no comma after it is the last value |
| OptionSteps.WordThenComma | mwcomposerfromhell/parser_tests_parser.py:116-125 | after an unquoted value and a comma the values go on from the comma |
| OptionExamples.BareKey | tests/parser_tests/test_parser_tests_parser.py:127-134 | `pst` parses to `{pst: True}` |
| OptionExamples.OneValueEach | tests/parser_tests/test_parser_tests_parser.py:137-145 | `thumbsize=0` and `language=en` parse to one value each |
| OptionExamples.QuotedWithSpace | tests/parser_tests/test_parser_tests_parser.py:148-155 | `test="foo bar"` keeps the inner space |
| OptionExamples.TwoValues | tests/parser_tests/test_parser_tests_parser.py:158-165 | `test=foo,bar` gives two values |
| OptionExamples.LinkTitle | tests/parser_tests/test_parser_tests_parser.py:168-175 | `title=[[Foo bar]]` gives the link's title |
| OptionExamples.Spacing | tests/parser_tests/test_parser_tests_parser.py:225-235 | `pst foo = bar, baz` gives the flag `pst` and `foo = [bar, baz]` |
| OptionExamples.QuotedAfterComma | mwcomposerfromhell/parser_tests_parser.py:116-125 | `abc=def,"ghi jkl"` gives `abc = [def, ghi]` and the flag `jkl` |
| OptionExamples.EqualsAtEnd | mwcomposerfromhell/parser_tests_parser.py:61-63 | `a=` fails with "Unexpected end of string" |
| OptionExamples.CommaAtEnd | mwcomposerfromhell/parser_tests_parser.py:116-125 | `a=b,` fails with "Expected a value." |
| OptionExamples.LinkNotClosed | mwcomposerfromhell/parser_tests_parser.py:74-78 | `a=[[b` fails with "Unmatched link." |
| OptionExamples.JsonEnd | mwcomposerfromhell/parser_tests_parser.py:83-107 | in `j={"k":"}"}` the brace inside the string is not counted and the object ends at the last brace |
| OptionExamples.JsonValue | mwcomposerfromhell/parser_tests_parser.py:83-113 | `j={"k":"}"}` gives `j = [Json({"k":"}"})]`: the slice handed to `json.loads` runs to the balancing brace, as tests/parser_tests/test_parser_tests_parser.py:178-222 expect |
| TestFileReader.Header | mwcomposerfromhell/parser_tests_parser.py:217-251 | one `!!` line: stated by `ParserTests.OpenStep`, `NextStep` and `CloseStep` |
| TestFileReader.SectionName | mwcomposerfromhell/parser_tests_parser.py:219 | `line[2:].strip().lower()`: each character is the lower case of the stripped rest's, so no ASCII capital is left; a line shorter than two characters gives the empty name |
| TestFileReader.Advance | mwcomposerfromhell/parser_tests_parser.py:217-257 | one line of the reading loop: stated by `AdvanceOk` and `ParserTests.PlainStep` |
| TestFileReader.Collect | mwcomposerfromhell/parser_tests_parser.py:215-257 | the reading loop over the whole file: stated by `CollectSnoc`, `CollectOk`, `CollectFailure` and `ReadGroup` |
| TestFileReader.AdvanceOk | mwcomposerfromhell/parser_tests_parser.py:217-255 | one line keeps the reader well formed, and any group it hands on is an article or a test holding its own name |
| TestFileReader.CollectSnoc | mwcomposerfromhell/parser_tests_parser.py:215-257 | one line more is one step of the loop, unless reading already failed |
| TestFileReader.CollectOk | mwcomposerfromhell/parser_tests_parser.py:222-233 | every group handed on is an article or a test holding its own name, so `visit`'s `RuntimeError` and the missing-`article` `KeyError` cannot happen |
| TestFileReader.CollectStops | mwcomposerfromhell/parser_tests_parser.py:222-224 | after an error no later line changes anything |
| TestFileReader.CollectFailure | mwcomposerfromhell/parser_tests_parser.py:222-224 | reading fails only at a `!!` line outside any group naming neither `article` nor `test`, with that name |
| TestFileReader.OutsideIgnored | mwcomposerfromhell/parser_tests_parser.py:253-257 | lines that are not `!!` lines change nothing outside a group |
| TestFileReader.BodyAccumulates | mwcomposerfromhell/parser_tests_parser.py:253-255 | inside a group, such lines are appended to the parameter being read |
| TestFileReader.SectionStep | mwcomposerfromhell/parser_tests_parser.py:248-251 | a section line inside a group completes the parameter being read and starts the next one |
| TestFileReader.ReadSections | mwcomposerfromhell/parser_tests_parser.py:236-255 | after the sections of a group the reader holds each earlier section's joined lines under its name |
| TestFileReader.ReadGroup | mwcomposerfromhell/parser_tests_parser.py:215-255 | a whole group, from its opening line to its end line, hands on one group holding each section's joined lines, and the reader is back outside |
| TestFileReader.OpenGroupDropped | mwcomposerfromhell/parser_tests_parser.py:236-251 | a group never ended is never handed on and raises nothing |
| TestFileReader.OfKindSnoc | tests/parser_tests/__init__.py:37-41 | one group more adds its parameters to the list of its kind |
| TestFileReader.KindsPartition | tests/parser_tests/__init__.py:37-41 | articles and tests share out all the groups between them |
| ParserTests.Store | mwcomposerfromhell/parser_tests_parser.py:178 | storing a new article keeps every earlier one and adds exactly its name |
| ParserTests.ArticleMapAppend | mwcomposerfromhell/parser_tests_parser.py:174-178 | one article more stores its text under its stripped name |
| ParserTests.AddArticle | mwcomposerfromhell/parser_tests_parser.py:157-178 | an accepted article adds exactly one article and keeps the rest and the tests |
| ParserTests.AddArticleOk | mwcomposerfromhell/parser_tests_parser.py:166-178 | accepted exactly when the fields are `article` and `text` and the stripped name is new, then stored under it |
| ParserTests.AddArticleFails | mwcomposerfromhell/parser_tests_parser.py:166-176 | the errors in order: unknown fields, then a duplicate name |
| ParserTests.TestOptions | mwcomposerfromhell/parser_tests_parser.py:199-202 | no or empty options give `{}`; otherwise the parsed options or their error |
| ParserTests.AddTest | mwcomposerfromhell/parser_tests_parser.py:180-205 | an accepted test is appended, the articles kept |
| ParserTests.AddTestValue | mwcomposerfromhell/parser_tests_parser.py:199-205 | the test appended is its fields without `options` and its parsed options |
| ParserTests.VisitGroup | mwcomposerfromhell/parser_tests_parser.py:147-155 | `visit` only extends the attributes; an unknown section type raises `RuntimeError`; a well-formed group raises only a visitor's errors |
| ParserTests.VisitAll | mwcomposerfromhell/parser_tests_parser.py:240-241 | visiting groups in order only extends the attributes |
| ParserTests.VisitAllSnoc | mwcomposerfromhell/parser_tests_parser.py:240-241 | one group more is one visit more, unless a visit already failed |
| ParserTests.VisitAllStops | mwcomposerfromhell/parser_tests_parser.py:240-241 | after a failed visit, later groups change nothing |
| ParserTests.VisitAllErrors | mwcomposerfromhell/parser_tests_parser.py:147-205 | visiting well-formed groups raises only visitor errors |
| ParserTests.VisitAllContents | mwcomposerfromhell/parser_tests_parser.py:157-205 | visits without error leave the tests of the groups in order, fields as read, and the articles stored by stripped name |
| ParserTests.RunCurrent | mwcomposerfromhell/parser_tests_parser.py:207-257 | `parse` as a function of the lines: stated by `RunCurrentCollect`, `ParseErrors` and `ParseContents` |
| ParserTests.RunCurrentSnoc | mwcomposerfromhell/parser_tests_parser.py:215-257 | one line more is one step of the loop, unless it already failed |
| ParserTests.FeedGather | mwcomposerfromhell/parser_tests_parser.py:240-241 | one line keeps visiting-as-you-go in agreement with reading-then-visiting |
| ParserTests.StoppedGather | mwcomposerfromhell/parser_tests_parser.py:240-241 | after a failed visit, reading on keeps the agreement |
| ParserTests.RunCurrentCollect | mwcomposerfromhell/parser_tests_parser.py:207-257 | `parse` visiting each group as it closes is reading the whole file and then visiting the groups in order; its error is the first visit's, else the reading's |
| ParserTests.ParseErrors | mwcomposerfromhell/parser_tests_parser.py:207-257 | `parse` raises only an unexpected opening section or a visitor's error, never `visit`'s `RuntimeError` |
| ParserTests.ParseContents | mwcomposerfromhell/parser_tests_parser.py:207-257 | from empty attributes, a parse without error leaves every test of the file in order and every article under its stripped name |
| ParserTests.RunCurrentStops | mwcomposerfromhell/parser_tests_parser.py:222-224 | once `parse` has raised, later lines change nothing |
| ParserTests.PlainStep | mwcomposerfromhell/parser_tests_parser.py:253-257 | a line that is not a `!!` line is appended only inside a group |
| ParserTests.HeaderStep | mwcomposerfromhell/parser_tests_parser.py:217-219 | a `!!` line is handled under its stripped, lower-cased section name |
| ParserTests.OpenStep | mwcomposerfromhell/parser_tests_parser.py:222-233 | outside a group `article` and `test` open one, with its end section, and anything else raises |
| ParserTests.NextStep | mwcomposerfromhell/parser_tests_parser.py:236-251 | a non-end section completes the parameter being read and starts an empty new one |
| ParserTests.CloseStep | mwcomposerfromhell/parser_tests_parser.py:236-246 | the end section completes the parameters and visits the group, leaving the group on success |
| ParserTests.TestsParser.constructor | mwcomposerfromhell/parser_tests_parser.py:142-145 | no articles and no tests |
| ParserTests.TestsParser.VisitArticle | mwcomposerfromhell/parser_tests_parser.py:157-178 | `visit_article` passes exactly when `AddArticle` accepts, and then leaves `AddArticle`'s attributes, otherwise changes nothing |
| ParserTests.TestsParser.VisitTest | mwcomposerfromhell/parser_tests_parser.py:180-205 | `visit_test` does the same with `AddTest` |
| ParserTests.TestsParser.Visit | mwcomposerfromhell/parser_tests_parser.py:147-155 | `visit` agrees with `VisitGroup` |
| ParserTests.TestsParser.ReadLine | mwcomposerfromhell/parser_tests_parser.py:215-257 | one round of the loop on its locals is one step of `RunCurrent` |
| ParserTests.TestsParser.Parse | mwcomposerfromhell/parser_tests_parser.py:207-257 | `parse` leaves the attributes `RunCurrent` gives and raises its error |
| LegacyParser.OpenLine | tests/parser_tests/__init__.py:56-65 | outside a group `article` and `test` open one, with its end section, and anything else raises `ValueError` |
| LegacyParser.NextLine | tests/parser_tests/__init__.py:67-81 | a non-end section completes the parameter being read and starts an empty new one |
| LegacyParser.CloseLine | tests/parser_tests/__init__.py:67-76 | the end section hands on the group with the completed parameters |
| LegacyParser.PlainLine | tests/parser_tests/__init__.py:83-85 | a line that is not a `!!` line is appended only inside a group |
| LegacyParser.KindsSnoc | tests/parser_tests/__init__.py:37-41 | a closed group goes to the articles or to the tests by its kind |
| LegacyParser.TestCasesParser.constructor | tests/parser_tests/__init__.py:22-25 | empty article and test lists |
| LegacyParser.TestCasesParser.VisitArticle | tests/parser_tests/__init__.py:37-38 | appends the article's parameters and nothing else |
| LegacyParser.TestCasesParser.VisitTest | tests/parser_tests/__init__.py:40-41 | appends the test's parameters and nothing else |
| LegacyParser.TestCasesParser.Visit | tests/parser_tests/__init__.py:27-35 | `article` and `test` append to their list; any other section raises `RuntimeError` and changes nothing |
| LegacyParser.TestCasesParser.ReadLine | tests/parser_tests/__init__.py:51-85 | one round of the loop on its locals is one step of `Collect`, with the closed group appended to its list |
| LegacyParser.TestCasesParser.Parse | tests/parser_tests/__init__.py:43-85 | `parse` appends the file's articles and tests in order and raises exactly the reading's `ValueError`, keeping the groups before it |
| LegacyParser.CurrentRefinesLegacy | mwcomposerfromhell/parser_tests_parser.py:207-257 | every file the legacy reader rejects the current one rejects; a file the current one reads without error holds the legacy tests without `options` and the legacy articles under their stripped names |

## Left out

- URL quoting (`url_quote`, `urllib.parse.quote`) is a function parameter of the
  configuration. `html.unescape(unquote(title))` in `canonicalize_title` is a
  `decode` parameter. Neither is interpreted.
- `get_article_url`, `get_edit_url` and `resolve_article` only format strings
  through the quoting above. The model calls the quoting but does not define
  URL escaping.
- `json.loads` in `_parse_options`: a JSON value is kept as its source text
  between the balancing braces; the JSON itself is not decoded. So balanced
  braces around text that is not JSON, such as `x={a}`, are accepted by the
  model as `Json("{a}")`, where `json.loads` raises `ValueError`
  (parser_tests_parser.py:112).
- `\w` in the option patterns and `lower()`/`upper()` cover ASCII only; other
  characters are kept as they are.
- `str.strip()` strips Python's whitespace set; `str.isspace` beyond it is not
  modelled.
- The output stream is a string (`StringIO.getvalue()`); a caller-supplied
  stream is not modelled. The `ValueError` for a `template_store` of another
  type cannot arise, because the constructor's argument is typed.
- `importlib` is replaced by a registry map holding the installed `string`
  module; `store.py`, `cache.py`, magic words and the command line are not
  part of this model.
- Python's recursion limit is a `fuel` bound on template nesting; running out
  is the `RecursionLimit` error.
- Output a composer writes before raising is not kept; an error ends the
  rendering.
- `readlines()` is the file given as a sequence of lines.
- The `ValueError` messages: unknown article fields are kept as a set of names
  rather than the sorted, space-joined message text.
- `visit_test` replaces the `options` field of its contents dictionary in
  place; the model keeps a test as its fields without `options` plus the
  parsed options.
- Dictionary order of the parser-test attributes and of the option results is
  not modelled (maps); the template parameters keep their order (`Params`).
- Rendering.Render: its own contract states only that output grows and the
  list queue stays well formed. What each visitor writes is stated case by
  case by the lemmas in `VisitorFacts` and `StackFacts`.
- The tag lemmas of `VisitorFacts` take a tag's attributes to be attribute
  nodes, as the parser gives them (`Tag.attributes`); the node type of the
  model would also allow other nodes there.
- Strings.ParseInt: accepts ASCII digits only; Python's `int()` also accepts
  the other Unicode decimal digits.
- Modules.GetFunction: the registry maps each module to the functions it
  provides; `getattr` would also find any other attribute of the module
  (`_len`, `__name__`, imports), which the model does not list.
