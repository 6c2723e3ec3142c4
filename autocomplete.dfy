/**
 * The autocompletion listener (`Autocomplete`). The editor asks for
 * completions synchronously, but they come from the analyzer, so the plugin
 * keeps a three-state readiness latch and a store of completions:
 *
 *   - `Idle` (Python `None`): the next request queries the analyzer, shapes
 *     its entries and hands them to `ShowCompletions`, which stores them and
 *     re-triggers the editor's completion popup; the request itself answers
 *     with the default reply.
 *   - `Pending` (Python `False`): set just before the query; requests answer
 *     the default reply and issue no query.
 *   - `Ready` (Python `True`): the next request returns the stored list once,
 *     empties the store and goes back to `Idle`.
 *
 * Because `ShowCompletions` runs inside the same request, a successful query
 * ends in `Ready`; `Pending` outlives a request only when the query, or the
 * reading of its answer, raises (`Raised`), and then nothing ever leaves it.
 */
module Autocomplete {
  import opened Common
  import opened Coordinates
  import CompletionPrefix

  /** One completion entry from the analyzer's `entries` list. */
  datatype Entry = Entry(name: string, desc: string)

  /** What the editor receives per entry: (text shown, text inserted). */
  type Completion = (string, string)

  /**
   * The analyzer's answer to `complete_cursor`: its entries, or an exception
   * raised by the call or by reading `entries`, `name` or `desc` from it.
   */
  datatype CompleteResponse = Entries(entries: seq<Entry>) | Raised

  /** The `complete_cursor` call: the prefix and the analyzer position. */
  datatype CompleteQuery = CompleteQuery(prefix: string, at: LineCol)

  /**
   * The handler's answer: the stored completions, the default
   * `([], INHIBIT_WORD_COMPLETIONS)`, or the query's exception propagating.
   */
  datatype Reply = Offer(items: seq<Completion>) | Inhibit | Propagates

  /** The latch; `None`, `False`, `True` in the plugin. */
  datatype Readiness = Idle | Pending | Ready

  /** The listener's fields: `cplns_ready`, `completions` and `cplns`. */
  datatype Latch = Latch(ready: Readiness, completions: seq<Completion>, cplns: seq<Completion>)

  /** The result of one completion request. */
  datatype Step = Step(next: Latch, query: Option<CompleteQuery>, reply: Reply)

  function Shape(e: Entry): Completion {
    (e.name + "\t" + e.desc, e.name)
  }

  /** The entries shaped for the editor, built by appending one entry at a time. */
  function Shaped(es: seq<Entry>): seq<Completion> {
    if es == [] then [] else Shaped(es[..|es| - 1]) + [Shape(es[|es| - 1])]
  }

  /** Shaping keeps count and order; entry i shows `name<TAB>desc` and inserts `name`. */
  lemma {:induction false} ShapedAt(es: seq<Entry>)
    ensures |Shaped(es)| == |es|
    ensures forall i :: 0 <= i < |es| ==> Shaped(es)[i] == (es[i].name + "\t" + es[i].desc, es[i].name)
  {
    if es != [] {
      ShapedAt(es[..|es| - 1]);
    }
  }

  /** `show_completions`: always ready, but only a non-empty list replaces the store. */
  function AfterShow(l: Latch, items: seq<Completion>): Latch {
    l.(ready := Ready, completions := if items != [] then items else l.completions)
  }

  /** `on_query_completions`, on the listener's fields. */
  function QueryStep(l: Latch, lineText: string, at: RowCol, response: CompleteResponse): Step {
    match l.ready
    case Ready =>
      if l.completions != [] then Step(l.(ready := Idle, completions := []), None, Offer(l.completions))
      else Step(l.(ready := Idle), None, Inhibit)
    case Pending =>
      Step(l, None, Inhibit)
    case Idle =>
      var query := CompleteQuery(CompletionPrefix.Prefix(lineText), ToAnalyzer(at));
      match response
      case Raised => Step(l.(ready := Pending), Some(query), Propagates)
      case Entries(es) =>
        var cplns := Shaped(es);
        Step(AfterShow(l.(ready := Pending, cplns := cplns), cplns), Some(query), Inhibit)
  }

  /** The store holds completions only while the latch is `Ready`. */
  predicate LatchInv(l: Latch) {
    l.ready != Ready ==> l.completions == []
  }

  /**
   * One request: a query is issued exactly in `Idle`, for the line's prefix at
   * the cursor's analyzer position; stored completions are offered only from
   * `Ready`, never empty, and the request that offers them empties the store;
   * the invariant is kept. The latch moves from `Ready` to `Idle`, stays put in
   * `Pending`, and leaves `Idle` for `Pending` when the query raises or for
   * `Ready`, holding the shaped entries, when it answers.
   */
  lemma QueryStepSpec(l: Latch, lineText: string, at: RowCol, response: CompleteResponse)
    requires LatchInv(l)
    ensures var s := QueryStep(l, lineText, at, response);
      LatchInv(s.next) &&
      (s.query.Some? <==> l.ready == Idle) &&
      (s.query.Some? ==> s.query.value == CompleteQuery(CompletionPrefix.Prefix(lineText), LineCol(at.row + 1, at.col))) &&
      (s.reply.Offer? <==> l.ready == Ready && l.completions != []) &&
      (s.reply.Offer? ==> s.reply.items == l.completions && s.reply.items != [] && s.next.completions == []) &&
      (s.reply.Propagates? <==> l.ready == Idle && response.Raised?) &&
      (l.ready == Ready ==> s.next.ready == Idle) &&
      (l.ready == Pending ==> s.next == l) &&
      (l.ready == Idle && response.Raised? ==> s.next.ready == Pending) &&
      (l.ready == Idle && response.Entries? ==>
        s.next.ready == Ready && s.next.completions == Shaped(response.entries))
  {
    if l.ready == Idle && response.Entries? {
      ShapedAt(response.entries);
    }
  }

  /**
   * A successful query from `Idle` is answered on the following request: with
   * the shaped entries if there were any, with the default reply otherwise;
   * either way the latch is `Idle` again with an empty store.
   */
  lemma QueryThenDeliver(l: Latch, t1: string, at1: RowCol, es: seq<Entry>,
                          t2: string, at2: RowCol, r2: CompleteResponse)
    requires LatchInv(l) && l.ready == Idle
    ensures var s1 := QueryStep(l, t1, at1, Entries(es));
      var s2 := QueryStep(s1.next, t2, at2, r2);
      s1.reply == Inhibit && s1.next.ready == Ready &&
      s2.query == None && s2.next.ready == Idle && s2.next.completions == [] &&
      s2.reply == if es == [] then Inhibit else Offer(Shaped(es))
  {
  }

  /** Stored completions are handed out once: the request after an offer issues a new query. */
  lemma OfferedOnce(l: Latch, t1: string, at1: RowCol, r1: CompleteResponse,
                    t2: string, at2: RowCol, r2: CompleteResponse)
    requires QueryStep(l, t1, at1, r1).reply.Offer?
    ensures var s2 := QueryStep(QueryStep(l, t1, at1, r1).next, t2, at2, r2);
      s2.query.Some? && !s2.reply.Offer?
  {
  }

  /** One editor request: the text before the cursor, the cursor and the analyzer's response. */
  datatype Request = Request(lineText: string, at: RowCol, response: CompleteResponse)

  /** The latch after a series of requests, with the queries they issued. */
  function Run(l: Latch, rs: seq<Request>): (Latch, seq<Option<CompleteQuery>>)
    decreases |rs|
  {
    if rs == [] then (l, [])
    else
      var s := QueryStep(l, rs[0].lineText, rs[0].at, rs[0].response);
      var rest := Run(s.next, rs[1..]);
      (rest.0, [s.query] + rest.1)
  }

  /** The invariant holds after any series of requests. */
  lemma {:induction false} RunKeepsInv(l: Latch, rs: seq<Request>)
    requires LatchInv(l)
    ensures LatchInv(Run(l, rs).0) && |Run(l, rs).1| == |rs|
    decreases |rs|
  {
    if rs != [] {
      QueryStepSpec(l, rs[0].lineText, rs[0].at, rs[0].response);
      RunKeepsInv(QueryStep(l, rs[0].lineText, rs[0].at, rs[0].response).next, rs[1..]);
    }
  }

  /**
   * Once a query has raised, the latch stays `Pending`: no later request
   * changes it or queries the analyzer again.
   */
  lemma {:induction false} PendingIsAbsorbing(l: Latch, rs: seq<Request>)
    requires l.ready == Pending
    ensures Run(l, rs).0 == l
    ensures forall k :: 0 <= k < |Run(l, rs).1| ==> Run(l, rs).1[k] == None
    decreases |rs|
  {
    if rs != [] {
      PendingIsAbsorbing(l, rs[1..]);
    }
  }

  /** The plugin's `Autocomplete` event listener. */
  class CompletionListener {
    var ready: Readiness
    var completions: seq<Completion>
    var cplns: seq<Completion>

    function State(): Latch
      reads this
    {
      Latch(ready, completions, cplns)
    }

    ghost predicate Valid()
      reads this
    {
      LatchInv(State())
    }

    constructor ()
      ensures Valid() && State() == Latch(Idle, [], [])
    {
      ready := Idle;
      completions := [];
      cplns := [];
    }

    /** `show_completions`; re-triggering the editor's popup is left to the editor. */
    method ShowCompletions(items: seq<Completion>)
      modifies this
      ensures State() == AfterShow(old(State()), items)
      ensures Valid()
    {
      ready := Ready;
      if items != [] {
        completions := items;
      }
    }

    /** `on_query_completions`: `lineText` is the line up to the cursor at `at`. */
    method OnQueryCompletions(lineText: string, at: RowCol, response: CompleteResponse)
      returns (query: Option<CompleteQuery>, reply: Reply)
      requires Valid()
      modifies this
      ensures Valid()
      ensures Step(State(), query, reply) == QueryStep(old(State()), lineText, at, response)
    {
      var prefix := CompletionPrefix.Prefix(lineText);
      query := None;
      if ready == Ready {
        ready := Idle;
        if completions != [] {
          reply := Offer(completions);
          completions := [];
          return;
        }
        reply := Inhibit;
        return;
      }
      if ready == Idle {
        ready := Pending;
        query := Some(CompleteQuery(prefix, ToAnalyzer(at)));
        if response.Raised? {
          reply := Propagates;
          return;
        }
        var es := response.entries;
        cplns := [];
        var i := 0;
        while i < |es|
          invariant 0 <= i <= |es|
          invariant cplns == Shaped(es[..i])
          invariant ready == Pending && completions == old(completions)
        {
          assert es[..i + 1][..i] == es[..i];
          cplns := cplns + [(es[i].name + "\t" + es[i].desc, es[i].name)];
          i := i + 1;
        }
        assert es[..|es|] == es;
        ShowCompletions(cplns);
      }
      reply := Inhibit;
    }
  }
}
