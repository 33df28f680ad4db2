/** `Gollum::Markup`: the state a page's renderer captures, the render
    pipeline over the wiki's filter chain, the file resolver that inclusion
    filters call, the default cache hooks, and the class-level registry of
    markup formats. */
module Markup {
  import opened FilterChain
  import Cleanup
  import Paths

  datatype Option<T> = None | Some(value: T)

  /** The wiki's sanitizer objects; only which one a render selects is modelled. */
  datatype Sanitizer = Sanitizer(name: string)

  /** What a render reads from the wiki: its filters, already bound to this
      renderer, and its two sanitizers. */
  datatype Wiki = Wiki(filterChain: seq<Filter>, sanitizer: Sanitizer, historySanitizer: Sanitizer)

  datatype Commit = Commit(id: string)

  /** What `Markup.new(page)` reads from the page. */
  datatype Page = Page(wiki: Wiki, filename: string, textData: string, version: Option<Commit>,
                       format: string, path: string)

  /** The arguments `find_file` passes to the wiki's file lookup. */
  datatype FileRequest = FileRequest(path: string, version: Option<string>)

  const DefaultIncludeLevels: int := 10

  /** What a render of `text` returns: the extracts folded left to right, the
      processes folded over the reversed chain, then the empty-paragraph
      cleanup; or the first exception a filter raised. */
  function RenderText(chain: seq<Filter>, text: string): Outcome
  {
    match Pass(Extract, chain, text)
    case Raised(e) => Raised(e)
    case Ok(forward) =>
      match Pass(Process, Reversed(chain), forward)
      case Raised(e) => Raised(e)
      case Ok(processed) => Ok(Cleanup.StripEmptyParagraphs(processed))
  }

  /** The extract calls of a render of `text`, in the order they are made. */
  function ExtractCalls(chain: seq<Filter>, text: string): seq<Event>
  {
    PassLog(Extract, chain, text, Positions(|chain|))
  }

  /** The process calls of a render of `text`: none when an extract raised. */
  function ProcessCalls(chain: seq<Filter>, text: string): seq<Event>
  {
    match Pass(Extract, chain, text)
    case Raised(_) => []
    case Ok(forward) => PassLog(Process, Reversed(chain), forward, Reversed(Positions(|chain|)))
  }

  /** The observable steps of a render of `text`, in order: the callback (when
      one is given), the extract calls, then the process calls. */
  function RenderLog(chain: seq<Filter>, text: string, withCallback: bool): seq<Event>
  {
    (if withCallback then [Yielded(text)] else []) + ExtractCalls(chain, text) + ProcessCalls(chain, text)
  }

  class Markup {
    const wiki: Wiki
    const name: string
    var data: string
    const version: Option<string>
    const format: string
    const dir: string
    var toc: Option<string>
    var metadata: Option<map<string, string>>
    var encoding: Option<string>
    var sanitize: Option<Sanitizer>
    var includeLevels: Option<int>

    /** `initialize(page)`: capture the page's wiki, name, text, version id,
        format and directory; nothing about a render is set yet. */
    constructor (page: Page)
      ensures wiki == page.wiki && name == page.filename && data == page.textData
      ensures version == (if page.version.Some? then Some(page.version.value.id) else None)
      ensures format == page.format && dir == Paths.Dirname(page.path)
      ensures toc == None && metadata == None
      ensures sanitize == None && encoding == None && includeLevels == None
    {
      wiki := page.wiki;
      name := page.filename;
      data := page.textData;
      version := if page.version.Some? then Some(page.version.value.id) else None;
      format := page.format;
      dir := Paths.Dirname(page.path);
      metadata := None;
      toc := None;
      sanitize := None;
      encoding := None;
      includeLevels := None;
    }

    /** `render(no_follow, encoding, include_levels)`: record the settings,
        then run the chain on a copy of the page text. `withCallback` stands
        for a block given to `render`; the block sees the copy before any
        filter runs. The ghost `log` records every step in order. */
    method Render(noFollow: bool := false, encoding: Option<string> := None,
                  includeLevels: int := DefaultIncludeLevels, withCallback: bool := false)
      returns (result: Outcome, ghost log: seq<Event>)
      modifies this
      ensures sanitize == Some(if noFollow then wiki.historySanitizer else wiki.sanitizer)
      ensures this.encoding == encoding
      ensures this.includeLevels == Some(includeLevels)
      ensures data == old(data) && toc == old(toc) && metadata == old(metadata)
      ensures result == RenderText(wiki.filterChain, data)
      ensures log == RenderLog(wiki.filterChain, data, withCallback)
    {
      sanitize := Some(if noFollow then wiki.historySanitizer else wiki.sanitizer);
      this.encoding := encoding;
      this.includeLevels := Some(includeLevels);

      var text := data;
      var chain := wiki.filterChain;
      ghost var ids := Positions(|chain|);
      log := if withCallback then [Yielded(text)] else [];

      // First the text goes through every filter's extract, in chain order...
      var forward, extractLog := RunPass(Extract, chain, text, ids);
      log := log + extractLog;
      if forward.Raised? {
        result := forward;
        return;
      }

      // ...then through every filter's process, in reverse chain order.
      var processed, processLog := RunPass(Process, Reversed(chain), forward.text, Reversed(ids));
      log := log + processLog;
      if processed.Raised? {
        result := processed;
        return;
      }

      result := Ok(Cleanup.StripEmptyParagraphs(processed.text));
    }

    /** `find_file(name, version = @version)`: the path and version handed to
        the wiki's file lookup. */
    function FindFile(name: string, version: Option<string> := this.version): (request: FileRequest)
      reads this
      ensures request.version == version
      ensures Paths.IsAbsolute(name) ==> "/" + request.path == name
      ensures !Paths.IsAbsolute(name) && dir == "." ==> request.path == name
      ensures !Paths.IsAbsolute(name) && dir != "." ==> request.path == Paths.Join(dir, name)
    {
      FileRequest(Paths.Resolve(dir, name), version)
    }

    /** `check_cache(type, id)`: the default hook never has anything cached. */
    function CheckCache(kind: string, id: string): (cached: Option<string>)
      ensures cached == None
    {
      None
    }

    /** `update_cache(type, id, data)`: the default hook stores nothing. */
    method UpdateCache(kind: string, id: string, formatted: string)
      ensures unchanged(this)
    {
    }
  }

  /** Two renders of the same page with the default settings return the
      same result: a render never changes the page text it starts from. */
  method RenderTwice(m: Markup) returns (first: Outcome, second: Outcome)
    modifies m
    ensures first == second
    ensures m.data == old(m.data)
    ensures m.sanitize == Some(m.wiki.sanitizer) && m.encoding == None
    ensures m.includeLevels == Some(DefaultIncludeLevels)
  {
    ghost var log: seq<Event>;
    first, log := m.Render();
    second, log := m.Render();
  }

  /** A `find_file` call that gives no version asks for the page's own version. */
  lemma FindFileDefaultsToPageVersion(m: Markup, name: string)
    ensures m.FindFile(name).version == m.version
  {
  }

  /** `log[p]` is a call of `ph` on the filter at chain position `i`. */
  predicate IsCallOf(log: seq<Event>, p: int, ph: Phase, i: nat)
  {
    0 <= p < |log| && log[p].Call? && log[p].phase == ph && log[p].index == i
  }

  /** Exactly one step of `log` calls `ph` on the filter at position `i`. */
  ghost predicate CalledOnce(log: seq<Event>, ph: Phase, i: nat)
  {
    && (exists p :: IsCallOf(log, p, ph, i))
    && (forall p, q :: IsCallOf(log, p, ph, i) && IsCallOf(log, q, ph, i) ==> p == q)
  }

  /** Step `a` may come before step `b` of a render: the callback comes
      first, extracts run in chain order, processes in reverse chain order,
      and every extract comes before every process. */
  predicate InOrder(a: Event, b: Event)
  {
    && !b.Yielded?
    && (a.Call? && b.Call? ==>
          if a.phase != b.phase then a.phase == Extract
          else if a.phase == Extract then a.index < b.index
          else a.index > b.index)
  }

  /** The extract calls: at most one per filter, the k-th on the filter at
      position k, and one per filter when the forward pass completes. */
  lemma ExtractCallsShape(chain: seq<Filter>, text: string)
    ensures var calls := ExtractCalls(chain, text);
      && |calls| <= |chain|
      && (Pass(Extract, chain, text).Ok? ==> |calls| == |chain|)
      && forall k :: 0 <= k < |calls| ==>
           calls[k].Call? && calls[k].phase == Extract && calls[k].index == k
  {
    PassLogCalls(Extract, chain, text, Positions(|chain|));
    PassLogLength(Extract, chain, text, Positions(|chain|));
  }

  /** The process calls: none when an extract raised, the k-th on the filter
      at position |chain| - 1 - k, and one per filter when the render completes. */
  lemma ProcessCallsShape(chain: seq<Filter>, text: string)
    ensures var calls := ProcessCalls(chain, text);
      && |calls| <= |chain|
      && (Pass(Extract, chain, text).Raised? ==> calls == [])
      && (RenderText(chain, text).Ok? ==> |calls| == |chain|)
      && forall k :: 0 <= k < |calls| ==>
           calls[k].Call? && calls[k].phase == Process && calls[k].index == |chain| - 1 - k
  {
    if Pass(Extract, chain, text).Ok? {
      var forward := Pass(Extract, chain, text).text;
      var rev, rids := Reversed(chain), Reversed(Positions(|chain|));
      PassLogCalls(Process, rev, forward, rids);
      PassLogLength(Process, rev, forward, rids);
    }
  }

  /** In the forward pass the first extract receives the page text, each
      later one the previous one's output, and the last one's output is the
      forward result. */
  lemma ExtractCallsChained(chain: seq<Filter>, text: string)
    ensures var calls := ExtractCalls(chain, text);
      && |calls| <= |chain|
      && (|chain| > 0 ==> |calls| > 0 && calls[0].input == text)
      && (forall k :: 0 <= k < |calls| - 1 ==> chain[k].extract(calls[k].input) == Ok(calls[k + 1].input))
      && (Pass(Extract, chain, text).Ok? ==> |calls| == |chain|)
      && (Pass(Extract, chain, text).Ok? && |chain| > 0 ==>
            chain[|chain| - 1].extract(calls[|chain| - 1].input) == Pass(Extract, chain, text))
  {
    var ids := Positions(|chain|);
    forall k | 0 <= k < |ExtractCalls(chain, text)| - 1
      ensures chain[k].extract(ExtractCalls(chain, text)[k].input) == Ok(ExtractCalls(chain, text)[k + 1].input)
    {
      PassLogChained(Extract, chain, text, ids, k);
    }
    PassLogLength(Extract, chain, text, ids);
    if |chain| > 0 {
      PassLogEnds(Extract, chain, text, ids);
    }
  }

  /** In the reverse pass the first process receives the forward result, each
      later one the previous one's output, the k-th call being on the filter
      at position |chain| - 1 - k; when the render completes, its result is
      the first filter's process output with empty paragraphs removed. */
  lemma ProcessCallsChained(chain: seq<Filter>, text: string)
    ensures var calls := ProcessCalls(chain, text);
      var n := |chain|;
      && |calls| <= n
      && (Pass(Extract, chain, text).Ok? && n > 0 ==>
            |calls| > 0 && calls[0].input == Pass(Extract, chain, text).text)
      && (forall k :: 0 <= k < |calls| - 1 ==> chain[n - 1 - k].process(calls[k].input) == Ok(calls[k + 1].input))
      && (RenderText(chain, text).Ok? ==> |calls| == n)
      && (RenderText(chain, text).Ok? && n > 0 ==>
            && chain[0].process(calls[n - 1].input).Ok?
            && RenderText(chain, text) == Ok(Cleanup.StripEmptyParagraphs(chain[0].process(calls[n - 1].input).text)))
  {
    var n := |chain|;
    if Pass(Extract, chain, text).Ok? {
      var forward := Pass(Extract, chain, text).text;
      var rev, rids := Reversed(chain), Reversed(Positions(n));
      var calls := PassLog(Process, rev, forward, rids);
      assert calls == ProcessCalls(chain, text);
      forall k | 0 <= k < |calls| - 1
        ensures chain[n - 1 - k].process(calls[k].input) == Ok(calls[k + 1].input)
      {
        PassLogChained(Process, rev, forward, rids, k);
      }
      PassLogLength(Process, rev, forward, rids);
      if n > 0 {
        PassLogEnds(Process, rev, forward, rids);
      }
    }
  }

  /** Every render, whether it completes or a filter raises, runs the callback
      first, the extracts in chain order, then the processes in exactly the
      reverse order: a filter is processed after every filter behind it in
      the chain and before every filter ahead of it. */
  lemma RenderLogInOrder(chain: seq<Filter>, text: string, withCallback: bool)
    ensures var log := RenderLog(chain, text, withCallback);
      forall p, q :: 0 <= p < q < |log| ==> InOrder(log[p], log[q])
  {
    var head := if withCallback then [Yielded(text)] else [];
    var extracts, processes := ExtractCalls(chain, text), ProcessCalls(chain, text);
    ExtractCallsShape(chain, text);
    ProcessCallsShape(chain, text);
    var log := head + extracts + processes;
    var h, e := |head|, |extracts|;
    forall p, q | 0 <= p < q < |log|
      ensures InOrder(log[p], log[q])
    {
      if q < h + e {
        assert log[q] == extracts[q - h];
        if p >= h { assert log[p] == extracts[p - h]; }
      } else {
        assert log[q] == processes[q - h - e];
        if p >= h + e {
          assert log[p] == processes[p - h - e];
        } else if p >= h {
          assert log[p] == extracts[p - h];
        }
      }
    }
  }

  /** A render that completes calls each filter's extract exactly once and
      each filter's process exactly once. */
  lemma RenderCallsEachFilterOnce(chain: seq<Filter>, text: string, withCallback: bool)
    requires RenderText(chain, text).Ok?
    ensures var log := RenderLog(chain, text, withCallback);
      forall i :: 0 <= i < |chain| ==> CalledOnce(log, Extract, i) && CalledOnce(log, Process, i)
  {
    var n := |chain|;
    var head := if withCallback then [Yielded(text)] else [];
    var extracts, processes := ExtractCalls(chain, text), ProcessCalls(chain, text);
    ExtractCallsShape(chain, text);
    ProcessCallsShape(chain, text);
    var log := head + extracts + processes;
    var h := |head|;
    forall i | 0 <= i < n
      ensures CalledOnce(log, Extract, i) && CalledOnce(log, Process, i)
    {
      assert log[h + i] == extracts[i];
      assert IsCallOf(log, h + i, Extract, i);
      assert log[h + n + (n - 1 - i)] == processes[n - 1 - i];
      assert IsCallOf(log, h + n + (n - 1 - i), Process, i);
      forall p | IsCallOf(log, p, Extract, i)
        ensures p == h + i
      {
        if h <= p < h + n { assert log[p] == extracts[p - h]; }
      }
      forall p | IsCallOf(log, p, Process, i)
        ensures p == h + n + (n - 1 - i)
      {
        if p >= h + n { assert log[p] == processes[p - h - n]; }
      }
    }
  }

  /** The callback and the first extract both see the page text itself, and
      every call hands its output to the next call, the last extract's going
      to the first process. */
  lemma RenderDataFlow(chain: seq<Filter>, text: string, withCallback: bool)
    ensures var log := RenderLog(chain, text, withCallback);
      var first := if withCallback then 1 else 0;
      && (withCallback ==> |log| > 0 && log[0] == Yielded(text))
      && (|chain| > 0 ==> |log| > first && log[first] == Call(Extract, 0, text))
      && (forall p :: first <= p < |log| - 1 ==>
            && log[p].Call? && log[p].index < |chain|
            && Step(log[p].phase, chain[log[p].index], log[p].input) == Ok(log[p + 1].input))
  {
    var n := |chain|;
    var head := if withCallback then [Yielded(text)] else [];
    var extracts, processes := ExtractCalls(chain, text), ProcessCalls(chain, text);
    ExtractCallsShape(chain, text);
    ProcessCallsShape(chain, text);
    ExtractCallsChained(chain, text);
    ProcessCallsChained(chain, text);
    var log := head + extracts + processes;
    var h, e := |head|, |extracts|;
    if n > 0 {
      assert log[h] == extracts[0];
    }
    forall p | h <= p < |log| - 1
      ensures log[p].Call? && log[p].index < n
      ensures Step(log[p].phase, chain[log[p].index], log[p].input) == Ok(log[p + 1].input)
    {
      if p < h + e - 1 {
        assert log[p] == extracts[p - h] && log[p + 1] == extracts[p - h + 1];
      } else if p == h + e - 1 {
        // The hand-over from the last extract to the first process.
        assert processes != [];
        assert log[p] == extracts[e - 1] && log[p + 1] == processes[0];
      } else {
        assert log[p] == processes[p - h - e] && log[p + 1] == processes[p - h - e + 1];
      }
    }
  }

  /** A render that completes ends with the process call of the first
      filter, and returns that call's output with empty paragraphs removed. */
  lemma RenderEndsWithFirstFilter(chain: seq<Filter>, text: string, withCallback: bool)
    requires RenderText(chain, text).Ok? && |chain| > 0
    ensures var log := RenderLog(chain, text, withCallback);
      && |log| > 0 && log[|log| - 1].Call? && log[|log| - 1].phase == Process && log[|log| - 1].index == 0
      && chain[0].process(log[|log| - 1].input).Ok?
      && RenderText(chain, text) == Ok(Cleanup.StripEmptyParagraphs(chain[0].process(log[|log| - 1].input).text))
  {
    var n := |chain|;
    var head := if withCallback then [Yielded(text)] else [];
    var extracts, processes := ExtractCalls(chain, text), ProcessCalls(chain, text);
    ProcessCallsShape(chain, text);
    ProcessCallsChained(chain, text);
    var log := head + extracts + processes;
    assert log[|log| - 1] == processes[n - 1];
  }

  /** A render that fails fails with the exception of its last call, and an
      extract that raises stops the render before any process runs. */
  lemma RenderFailureStopsChain(chain: seq<Filter>, text: string, withCallback: bool)
    requires RenderText(chain, text).Raised?
    ensures var log := RenderLog(chain, text, withCallback);
      && |log| > 0 && log[|log| - 1].Call? && log[|log| - 1].index < |chain|
      && Step(log[|log| - 1].phase, chain[log[|log| - 1].index], log[|log| - 1].input) == RenderText(chain, text)
      && (Pass(Extract, chain, text).Raised? ==>
            forall p :: 0 <= p < |log| ==> !(log[p].Call? && log[p].phase == Process))
  {
    var n := |chain|;
    var head := if withCallback then [Yielded(text)] else [];
    var ids := Positions(n);
    var extracts, processes := ExtractCalls(chain, text), ProcessCalls(chain, text);
    ExtractCallsShape(chain, text);
    ProcessCallsShape(chain, text);
    var log := head + extracts + processes;
    if Pass(Extract, chain, text).Raised? {
      PassLogLength(Extract, chain, text, ids);
      assert log == head + extracts;
      assert log[|log| - 1] == extracts[|extracts| - 1];
      forall p | 0 <= p < |log|
        ensures !(log[p].Call? && log[p].phase == Process)
      {
        if p >= |head| { assert log[p] == extracts[p - |head|]; }
      }
    } else {
      var forward := Pass(Extract, chain, text).text;
      var rev, rids := Reversed(chain), Reversed(ids);
      PassLogLength(Process, rev, forward, rids);
      assert log[|log| - 1] == processes[|processes| - 1];
    }
  }

  /** `Regexp` objects are opaque: a regexp is known by the pattern it was built from. */
  datatype Regexp = Regexp(source: string)

  /** An entry of `Markup.formats`. */
  datatype Format = Format(name: string, regexp: Regexp)

  /** `@formats` after `register(ext, name, regexp: regexp)`: the entry for
      `ext` is replaced, with the exact-extension pattern when no regexp is
      given, and every other entry is kept. */
  function Registered(formats: map<string, Format>, ext: string, name: string, regexp: Option<Regexp>)
    : (r: map<string, Format>)
    ensures ext in r && r[ext].name == name
    ensures r[ext].regexp == if regexp.Some? then regexp.value else Regexp(ext)
    ensures forall e :: e in formats && e != ext ==> e in r && r[e] == formats[e]
    ensures r.Keys == formats.Keys + {ext}
  {
    formats[ext := Format(name, if regexp.Some? then regexp.value else Regexp(ext))]
  }

  /** The class-level registry `Markup.formats`. */
  class FormatRegistry {
    var formats: map<string, Format>

    constructor ()
      ensures formats == map[]
    {
      formats := map[];
    }

    /** `Markup.register(ext, name, regexp: ...)`. */
    method Register(ext: string, name: string, regexp: Option<Regexp> := None)
      modifies this
      ensures formats == Registered(old(formats), ext, name, regexp)
    {
      var pattern := if regexp.Some? then regexp.value else Regexp(ext);
      formats := formats[ext := Format(name, pattern)];
    }
  }

  /** Registering an extension again overwrites the first registration. */
  lemma LastRegistrationWins(formats: map<string, Format>, ext: string, name1: string, regexp1: Option<Regexp>,
                             name2: string, regexp2: Option<Regexp>)
    ensures Registered(Registered(formats, ext, name1, regexp1), ext, name2, regexp2)
         == Registered(formats, ext, name2, regexp2)
  {
  }

  /** Registrations of different extensions do not interfere. */
  lemma DistinctRegistrationsCommute(formats: map<string, Format>, ext1: string, name1: string, regexp1: Option<Regexp>,
                                     ext2: string, name2: string, regexp2: Option<Regexp>)
    requires ext1 != ext2
    ensures Registered(Registered(formats, ext1, name1, regexp1), ext2, name2, regexp2)
         == Registered(Registered(formats, ext2, name2, regexp2), ext1, name1, regexp1)
  {
  }
}
