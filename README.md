# gollum-lib `Gollum::Markup`, modelled in Dafny

This project models the core of gollum-lib's page renderer, `Gollum::Markup`:

- `Markup.new(page)`: captures the page's wiki, file name, text, version id, format and directory.
- `Markup#render`: records the render settings. It then runs the page text through the wiki's
  filter chain on a copy. Every filter's `extract` runs in chain order. Then every filter's
  `process` runs in reverse chain order. Finally every empty paragraph `<p></p>` is deleted in
  one left-to-right pass.
- `Markup#find_file`: works out the path and version an inclusion filter looks up.
- The default `check_cache` / `update_cache` hooks.
- The class-level format registry `Markup.register`.

Files:

- `chain.dfy` (module `FilterChain`): filters, what a call returns (`Ok(text)` or
  `Raised(error)`, the exception a filter raises), the fold of one phase over a chain, the log
  of calls a pass makes, and the loop `RunPass` that `render` runs once per phase.
- `cleanup.dfy` (module `Cleanup`): the `gsub!` that deletes `<p></p>`, and its properties
  (length, no change when there is no match, what exactly is deleted, a single pass).
- `paths.dfy` (module `Paths`): `File.dirname`, `File.join`, and the path `find_file` builds.
  This includes the anchor test exactly as written and the corrected one (see Findings).
- `markup.dfy` (module `Markup`): the `Markup` class (constructor, `Render`, `FindFile`, cache
  hooks), the specification functions of a render (`RenderText`, `RenderLog`), the lemmas on
  the order and data flow of the filter calls, and the `FormatRegistry` class.

A render's observable behaviour is written as a ghost log of events. The log holds the
callback seeing the text, then each `extract` and `process` call with the chain position of
its filter and the text it received. `Render` is proved to return `RenderText` and to produce
`RenderLog`. The lemmas then prove, for every chain and every text:

- the calls happen in order (callback, extracts forward, processes backward);
- each call is made exactly once when the render completes;
- every call feeds the next one;
- the result comes from the first filter's `process` call;
- a raised exception ends the render.

## Model

| member | source | states |
|---|---|---|
| FilterChain.RunPass | lib/gollum-lib/markup.rb:96-103 | One pass of `data = filter.extract(data)` (or `process`) over a chain returns the left fold of that phase, or the first exception raised, and makes exactly the calls of `PassLog` |
| FilterChain.Reversed | lib/gollum-lib/markup.rb:101 | `reverse` keeps the length and puts element `n-1-j` at position `j` |
| FilterChain.PassSnoc | lib/gollum-lib/markup.rb:96-98 | Running one more filter after a chain is running it on the output of the chain, unless the chain raised |
| FilterChain.PassLogSnoc | lib/gollum-lib/markup.rb:96-98 | One more filter adds exactly one call to the log, on the previous output, unless the pass already raised |
| FilterChain.PassStopsAtRaise | lib/gollum-lib/markup.rb:96-103 | After a filter raises, no later filter is called and the exception is the pass's result |
| FilterChain.PassLogAt | lib/gollum-lib/markup.rb:96-103 | The k-th call of a pass is on the k-th filter, with the output of the first k filters, none of which raised |
| FilterChain.PassLogLength | lib/gollum-lib/markup.rb:96-103 | A completed pass calls every filter; a failed pass calls the filters up to the one that raised, and that call's exception is the result |
| FilterChain.PassLogChained | lib/gollum-lib/markup.rb:96-103 | Each call's input is the previous call's output |
| FilterChain.PassLogCalls | lib/gollum-lib/markup.rb:96-103 | Every entry of a pass's log is a call of that phase on the filter at the recorded position |
| FilterChain.PassLogEnds | lib/gollum-lib/markup.rb:96-103 | The first call receives the starting text, and a completed pass returns the last call's output |
| Cleanup.StripEmptyParagraphs | lib/gollum-lib/markup.rb:106-108 | The cleanup never lengthens the text |
| Cleanup.StripLength | lib/gollum-lib/markup.rb:106-108 | The result is 7 characters shorter per occurrence of `<p></p>` |
| Cleanup.OccurrencesSkipMatch | lib/gollum-lib/markup.rb:106-108 | `<p></p>` cannot overlap itself, so the matches the pass deletes are all the occurrences |
| Cleanup.StripWithoutMatch | lib/gollum-lib/markup.rb:106-108 | Text without `<p></p>` comes out unchanged |
| Cleanup.StripChangesIffMatch | lib/gollum-lib/markup.rb:106-108 | The cleanup changes the text if and only if `<p></p>` occurs in it |
| Cleanup.PiecesJoin | lib/gollum-lib/markup.rb:106-108 | The input is the kept pieces joined by `<p></p>` |
| Cleanup.PiecesConcat | lib/gollum-lib/markup.rb:106-108 | The output is the kept pieces with nothing between them |
| Cleanup.PiecesCount | lib/gollum-lib/markup.rb:106-108 | There is one deletion per occurrence |
| Cleanup.PiecesHoldNoMatch | lib/gollum-lib/markup.rb:106-108 | No kept piece contains `<p></p>` |
| Cleanup.StripDeletesOnlyMatches | lib/gollum-lib/markup.rb:106-108 | The pass deletes whole non-overlapping matches, left to right, and nothing else |
| Cleanup.StripIsSinglePass | lib/gollum-lib/markup.rb:106-108 | A single pass can leave a new `<p></p>`: `<p><p></p></p>` becomes `<p></p>` |
| Paths.LastSlash | lib/gollum-lib/markup.rb:62 | The position of the last separator, if any: a separator, with none after it |
| Paths.Dirname | lib/gollum-lib/markup.rb:62 | `File.dirname`: "." without a separator, "/" when the only separator is the leading one, and otherwise the non-empty prefix before the last separator |
| Paths.AbsoluteIgnoresDirectory | lib/gollum-lib/markup.rb:119-120 | An absolute name loses its leading `/` and the page's directory plays no part |
| Paths.RelativeJoinsDirectory | lib/gollum-lib/markup.rb:121-123 | A relative name is used as-is at the root "." and is otherwise the directory, one `/`, and the name |
| Paths.ResolveOwnPath | lib/gollum-lib/markup.rb:118-124 | A page's own file name, resolved from its own directory, gives back the page's path |
| Paths.AsWrittenAgreesOnSingleLineNames | lib/gollum-lib/markup.rb:119 | For names without a newline, the multi-line anchor test and the intended test agree |
| Paths.AsWrittenMisreadsMultiLineName | lib/gollum-lib/markup.rb:119-120 | As written, `"a\n/b"` from directory `docs` resolves to `"\n/b"`, not `"docs/a\n/b"` |
| Markup.Markup.constructor | lib/gollum-lib/markup.rb:54-65 | Captures wiki, name, text, version id (none without a version), format and `File.dirname(path)`; metadata and render settings are unset |
| Markup.Markup.Render | lib/gollum-lib/markup.rb:75-111 | Records the sanitizer (history sanitizer under no_follow), the encoding and include_levels (default 10). Render's own code assigns neither the page text nor toc nor metadata. Returns `RenderText` of the page text and makes exactly the calls of `RenderLog` |
| Markup.Markup.FindFile | lib/gollum-lib/markup.rb:118-124 | Asks for the page's version unless one is given. An absolute name is asked for without its `/`. A relative name is asked for as-is at the root and joined onto the page's directory elsewhere |
| Markup.Markup.CheckCache | lib/gollum-lib/markup.rb:133-134 | The default hook never finds anything cached |
| Markup.Markup.UpdateCache | lib/gollum-lib/markup.rb:143-144 | The default hook changes nothing |
| Markup.RenderTwice | lib/gollum-lib/markup.rb:83 | Two default renders of the same object return the same result, because a render never assigns the page text |
| Markup.FindFileDefaultsToPageVersion | lib/gollum-lib/markup.rb:118 | Without a version argument, `find_file` asks for the page's own version |
| Markup.ExtractCallsShape | lib/gollum-lib/markup.rb:96-98 | The k-th extract call is on the filter at position k; every filter is called when the forward pass completes |
| Markup.ProcessCallsShape | lib/gollum-lib/markup.rb:100-103 | No process runs after an extract raised. The k-th process call is on the filter at position n-1-k. Every filter is called when the render completes |
| Markup.ExtractCallsChained | lib/gollum-lib/markup.rb:95-98 | The first extract receives the page text, each later one the previous output, and the last output is the forward result |
| Markup.ProcessCallsChained | lib/gollum-lib/markup.rb:100-110 | The first process receives the forward result, each later one the previous output; the render returns the last output with `<p></p>` removed |
| Markup.RenderLogInOrder | lib/gollum-lib/markup.rb:91-103 | Callback first, extracts in chain order, processes in exactly the reverse order, every extract before every process |
| Markup.RenderCallsEachFilterOnce | lib/gollum-lib/markup.rb:95-103 | A render that completes calls each filter's extract exactly once and its process exactly once |
| Markup.RenderDataFlow | lib/gollum-lib/markup.rb:83-103 | The callback and the first extract see the unmodified copy of the text; each call hands its output to the next |
| Markup.RenderEndsWithFirstFilter | lib/gollum-lib/markup.rb:100-110 | A completed render ends with the first filter's process, and returns its output with `<p></p>` removed |
| Markup.RenderFailureStopsChain | lib/gollum-lib/markup.rb:95-103 | A failed render fails with the exception of its last call; an extract that raises stops the render before any process |
| Markup.Registered | lib/gollum-lib/markup.rb:32-34 | `register` sets the entry for `ext` (default pattern built from `ext`) and keeps every other entry |
| Markup.FormatRegistry.constructor | lib/gollum-lib/markup.rb:17 | The registry starts empty |
| Markup.FormatRegistry.Register | lib/gollum-lib/markup.rb:32-34 | Registering replaces the `formats` map by `Registered` of the old one |
| Markup.LastRegistrationWins | lib/gollum-lib/markup.rb:34 | Registering an extension again overwrites the earlier registration |
| Markup.DistinctRegistrationsCommute | lib/gollum-lib/markup.rb:34 | Registrations of different extensions do not interfere |

## Left out

- Filters are given as bound functions from text to outcome. Looking up each filter class by
  name and calling `new(self)` (lib/gollum-lib/markup.rb:84-86) is not modelled. Neither is
  each filter's own logic, which lives in other files.
- A filter that reads or writes the renderer's `toc`, `metadata` or settings through its
  back-reference is not modelled; filters here are functions of the text alone.
- The block given to `render` receives `Nokogiri::HTML::DocumentFragment.parse(data)`. The model
  records that it sees the unmodified copy of the text. HTML parsing is not modelled.
- `@to_xml_opts`, `@sub_page` and `@parent_page` are set by the constructor but used by no
  modelled operation. They are left out.
- `@wiki.file(path, version)` is repository I/O. `Markup.Markup.FindFile` returns the request
  it would make (path and version) instead of the file.
- Markup.Markup.FindFile: decides absoluteness on the first character only, the corrected test
  (see Findings). The test as written is `Paths.ResolveAsWritten`.
- Paths.Dirname: models `File.dirname` for paths without trailing or repeated separators. Ruby
  also strips trailing separators and collapses runs of them; that is not modelled.
- Exceptions are modelled as `Raised(message)`. Their classes and backtraces are not modelled.
- Text is a sequence of characters. The `encoding` argument is only recorded: no transcoding is
  modelled.
- `Regexp.new(ext.to_s)` is modelled by the pattern source it is built from. Regexp matching is
  not modelled.
- `GitHub::Markup.add_markup` with a block (lib/gollum-lib/markup.rb:35) registers with an
  external library and is left out.
- `Pygments.start`, the `require`s, the `Helpers` mix-in and the `MarkupGFM` alias are not
  modelled. They load or name code outside this file.
- Markup.Markup.Render: `toc == old(toc) && metadata == old(metadata)` holds only for filters
  that do not write through their back-reference. In the source, `toc` and `metadata` are
  accessors, and a filter built with `new(self)` may set them during a render.
- Strings are values. So the model does not capture `@data.dup` taking a copy. Nor does it
  capture `gsub!` changing in place the String object the last `process` returned, or any
  alias of that object a filter or hook kept. `Markup.RenderTwice` rests on the page text
  never being assigned.
- Markup.Registered: extensions are modelled by their `to_s`. In the source the `@formats` key
  is `ext` itself (any object), and only the default pattern uses `ext.to_s`.
- `Markup.formats` is a class-level instance variable. It is modelled as the `formats` field of
  a `FormatRegistry` object.

## Findings

| source | as written | input that shows it | evidently intended | confidence | as-written member | corrected member |
|---|---|---|---|---|---|---|
| lib/gollum-lib/markup.rb:119 | `name =~ /^\//`: Ruby's `^` matches at the start of every line, so a name counts as absolute when any of its lines starts with `/`; then its first character is dropped | `find_file("a\n/b")` from a page in `docs` looks up `"\n/b"` | only a leading `/` makes a name absolute (`\A`), so the lookup is `"docs/a\n/b"` | medium, not executed | Paths.ResolveAsWritten, Paths.AsWrittenMisreadsMultiLineName | Paths.Resolve, Paths.AbsoluteIgnoresDirectory, Paths.RelativeJoinsDirectory |
