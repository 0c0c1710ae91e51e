/**
 * loadScript / parseJsonScript: a script document of optional timer
 * options and a list of entries, each a scope and the lines to register
 * under it. The document is taken as already decoded: its shape is given
 * by the datatypes below.
 */
module Loader {
  import opened Wrappers
  import opened Cuepoints
  import opened Timeline

  /**
   * The "options" object. A missing shouldRepeat is undefined in the
   * source and reads as false wherever the flag is tested.
   */
  datatype Options = Options(fps: real, totalTimeInSeconds: real, delay: Interval, shouldRepeat: Option<bool>)

  /** One element of "actions": the value of "using" and the lines of "at". */
  datatype Entry = Entry(scope: Scope, lines: seq<string>)

  datatype Document = Document(options: Option<Options>, entries: seq<Entry>)

  /** The options, when present, go to setupTimer. */
  function Configure(s: State, options: Option<Options>): State
  {
    match options
    case None => s
    case Some(o) => SetupTimer(s, o.fps, o.totalTimeInSeconds, o.delay, o.shouldRepeat.GetOr(false))
  }

  /** The inner loop: `at` for each line in turn. */
  function AtEach(s: State, lines: seq<string>): State
    decreases |lines|
  {
    if lines == [] then s else ParseScript(AtEach(s, lines[..|lines| - 1]), lines[|lines| - 1])
  }

  /** The outer loop: for each entry in turn, `using` its scope and then `at` its lines. */
  function ApplyEntries(s: State, entries: seq<Entry>): State
    decreases |entries|
  {
    if entries == [] then s
    else
      var e := entries[|entries| - 1];
      AtEach(Using(ApplyEntries(s, entries[..|entries| - 1]), e.scope), e.lines)
  }

  /** One more line of the inner loop is one more `at`. */
  lemma AtEachStep(s: State, lines: seq<string>, a: nat)
    requires a < |lines|
    ensures AtEach(s, lines[..a + 1]) == ParseScript(AtEach(s, lines[..a]), lines[a])
  {
    assert lines[..a + 1][..a] == lines[..a];
  }

  /** One more entry of the outer loop is one more `using` followed by its lines. */
  lemma ApplyEntriesStep(s: State, entries: seq<Entry>, i: nat)
    requires i < |entries|
    ensures ApplyEntries(s, entries[..i + 1])
         == AtEach(Using(ApplyEntries(s, entries[..i]), entries[i].scope), entries[i].lines)
  {
    assert entries[..i + 1][..i] == entries[..i];
  }

  function ParseJsonScript(s: State, doc: Document): State
  {
    ApplyEntries(Configure(s, doc.options), doc.entries)
  }

  /** The bindings a list of lines produces under one scope, line by line. */
  function LineBindings(lines: seq<string>, scope: Scope): (r: seq<Binding>)
    ensures |r| == |lines|
    ensures forall i :: 0 <= i < |lines| ==> r[i] == ParseLine(lines[i], scope)
    decreases |lines|
  {
    if lines == [] then []
    else LineBindings(lines[..|lines| - 1], scope) + [ParseLine(lines[|lines| - 1], scope)]
  }

  /** The bindings of a whole document, entry by entry in document order. */
  function Bindings(entries: seq<Entry>): seq<Binding>
    decreases |entries|
  {
    if entries == [] then []
    else
      var e := entries[|entries| - 1];
      Bindings(entries[..|entries| - 1]) + LineBindings(e.lines, e.scope)
  }

  /** Registering lines one `at` at a time is registering their bindings in order under the current scope. */
  lemma {:induction false} AtEachRegisters(s: State, lines: seq<string>)
    ensures AtEach(s, lines) == s.(actions := RegisterAll(s.actions, LineBindings(lines, s.scope)))
    decreases |lines|
  {
    if lines != [] {
      var init := lines[..|lines| - 1];
      var line := lines[|lines| - 1];
      AtEachRegisters(s, init);
      var bs := LineBindings(lines, s.scope);
      assert bs[..|bs| - 1] == LineBindings(init, s.scope);
      assert bs[|bs| - 1] == ParseLine(line, s.scope);
    }
  }

  /**
   * The entries register their bindings in document order, each line under
   * its own entry's scope; the scope left current is the last entry's.
   */
  lemma {:induction false} ApplyEntriesRegisters(s: State, entries: seq<Entry>)
    ensures ApplyEntries(s, entries)
         == s.(actions := RegisterAll(s.actions, Bindings(entries)),
               scope := if entries == [] then s.scope else entries[|entries| - 1].scope)
    decreases |entries|
  {
    if entries != [] {
      var init := entries[..|entries| - 1];
      var e := entries[|entries| - 1];
      ApplyEntriesRegisters(s, init);
      var mid := Using(ApplyEntries(s, init), e.scope);
      AtEachRegisters(mid, e.lines);
      RegisterAllAppend(s.actions, Bindings(init), LineBindings(e.lines, e.scope));
    }
  }

  /**
   * Loading a document: the options, if any, are applied once, as
   * setupTimer; then each key's list grows by exactly the document's lines
   * for that key, in document order; the dispatch log and the callback
   * count are untouched.
   */
  lemma LoadedDocument(s: State, doc: Document, key: string)
    ensures var r := ParseJsonScript(s, doc);
            && Lookup(r.actions, key) == Lookup(s.actions, key) + Matching(Bindings(doc.entries), key)
            && r.scope == (if doc.entries == [] then s.scope else doc.entries[|doc.entries| - 1].scope)
            && r.log == s.log && r.callbacksRequested == s.callbacksRequested
            && (doc.options.None? ==> r.config == s.config && r.clock == s.clock)
            && (doc.options.Some? ==>
                  var o := doc.options.value;
                  && r.config == Config(o.fps, o.delay, o.totalTimeInSeconds, o.fps * o.totalTimeInSeconds,
                                        o.shouldRepeat.GetOr(false))
                  && r.clock == Clock(false, s.clock.timestamp, 0, 0, 0))
  {
    var configured := Configure(s, doc.options);
    ApplyEntriesRegisters(configured, doc.entries);
    RegisterAllLookup(s.actions, Bindings(doc.entries), key);
  }
}
