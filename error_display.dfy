/**
 * Error reporting (`MerlinBuffer`). After a save the plugin asks the analyzer
 * for its diagnostics, keeps those that carry both a start and an end, and
 * remembers for each the region of its line(s) together with its message;
 * whenever the selection changes, the first remembered region that touches
 * the caret has its message shown in the error panel as `row: message`.
 *
 * Conversions the plugin borrows from the editor and from helpers outside
 * this file (analyzer position to offset, the full-line region, message
 * clean-up, offset to row) are parameters here.
 */
module ErrorDisplay {
  import opened Common
  import opened Coordinates

  /** An editor region between two offsets, in either direction. */
  datatype Region = Region(a: int, b: int) {
    function Begin(): int { if a < b then a else b }
    function End(): int { if a < b then b else a }
  }

  /**
   * The editor's `Region.intersects`, as Sublime Text 3 defines it: equal
   * regions, or an end point of one strictly inside the other.
   */
  predicate Intersects(x: Region, y: Region) {
    var lb, le, rb, re := x.Begin(), x.End(), y.Begin(), y.End();
    (lb == rb && le == re) ||
    (lb < rb < le) || (lb < re < le) ||
    (rb < lb < re) || (rb < le < re)
  }

  /**
   * Why the remembered region starts one before its line: an empty caret at
   * `p` touches `Region(a - 1, b)` exactly when `p` lies on the line `[a, b)`,
   * its first column included.
   */
  lemma CaretOnWidenedLine(a: int, b: int, p: int)
    requires a < b
    ensures Intersects(Region(a - 1, b), Region(p, p)) <==> a <= p < b
  {
  }

  /**
   * The other side of the widening: when the full line is empty, as on the
   * empty last line of a buffer that ends in a newline, the remembered region
   * `Region(a - 1, a)` is touched by no empty caret at all.
   */
  lemma EmptyLineNeverHit(a: int, p: int)
    ensures !Intersects(Region(a - 1, a), Region(p, p))
  {
  }

  /** A diagnostic of the analyzer; `start` and `end` may be missing. */
  datatype Diagnostic = Diagnostic(start: Option<LineCol>, end: Option<LineCol>, message: string)

  predicate HasSpan(d: Diagnostic) {
    d.start.Some? && d.end.Some?
  }

  /** The diagnostics with both ends, in their original order. */
  function Spanned(ds: seq<Diagnostic>): (r: seq<Diagnostic>)
    ensures forall i :: 0 <= i < |r| ==> HasSpan(r[i])
  {
    if ds == [] then []
    else Spanned(ds[..|ds| - 1]) + (if HasSpan(ds[|ds| - 1]) then [ds[|ds| - 1]] else [])
  }

  /** Exactly the diagnostics with both ends are kept. */
  lemma {:induction false} SpannedMembers(ds: seq<Diagnostic>)
    ensures forall d :: d in Spanned(ds) <==> d in ds && HasSpan(d)
    ensures |Spanned(ds)| <= |ds|
  {
    if ds != [] {
      var init := ds[..|ds| - 1];
      SpannedMembers(init);
      assert ds == init + [ds[|ds| - 1]];
    }
  }

  /** Keeping preserves order: it distributes over concatenation. */
  lemma {:induction false} SpannedAppend(xs: seq<Diagnostic>, ys: seq<Diagnostic>)
    ensures Spanned(xs + ys) == Spanned(xs) + Spanned(ys)
    decreases |ys|
  {
    if ys == [] {
      assert xs + ys == xs;
    } else {
      var init := ys[..|ys| - 1];
      SpannedAppend(xs, init);
      assert (xs + ys)[..|xs + ys| - 1] == xs + init;
    }
  }

  /** The underline of a kept diagnostic, from its two converted ends. */
  function Underline(d: Diagnostic, toOffset: LineCol -> int): Region
    requires HasSpan(d)
  {
    Region(toOffset(d.start.value), toOffset(d.end.value))
  }

  /** What is remembered of a kept diagnostic: its full line region, widened one to the left, and its cleaned message. */
  function Entry(d: Diagnostic, toOffset: LineCol -> int, fullLine: Region -> Region, clean: string -> string): (Region, string)
    requires HasSpan(d)
  {
    var line := fullLine(Underline(d, toOffset));
    (Region(line.a - 1, line.b), clean(d.message))
  }

  /** Index of the first entry whose region touches the caret, `|entries|` if none does. */
  function FirstHit(entries: seq<(Region, string)>, caret: Region): (k: nat)
    ensures k <= |entries|
    ensures forall j :: 0 <= j < k ==> !Intersects(entries[j].0, caret)
    ensures k < |entries| ==> Intersects(entries[k].0, caret)
  {
    if entries == [] then 0
    else if Intersects(entries[0].0, caret) then 0
    else 1 + FirstHit(entries[1..], caret)
  }

  /** What the panel is told to do. */
  datatype PanelAction = Close | Show(text: string)

  function Closes(n: nat): (r: seq<PanelAction>)
    ensures |r| == n && forall j :: 0 <= j < n ==> r[j] == Close
  {
    if n == 0 then [] else Closes(n - 1) + [Close]
  }

  /** The panel text `"%d: %s"`: the 0-based row, a colon, a space, the message. */
  function PanelText(row: nat, message: string): string {
    Decimal(row) + ": " + message
  }

  /** The row and the message are both recoverable from the panel text, whatever the message holds. */
  lemma PanelTextSplits(row: nat, message: string)
    ensures var t := PanelText(row, message);
      FirstIndexOf(t, ':') == Some(|Decimal(row)|) &&
      ParseDecimal(t[..|Decimal(row)|]) == Some(row) &&
      t[|Decimal(row)| + 2..] == message
  {
    var d := Decimal(row);
    var t := PanelText(row, message);
    assert t[..|d|] == d;
    assert t[|d|] == ':';
    assert t[|d| + 2..] == message;
    DecimalRoundTrip(row);
  }

  /** The plugin's `MerlinBuffer` listener and the errors it remembers. */
  class ErrorBuffer {
    var errorMessages: seq<(Region, string)>

    constructor ()
      ensures errorMessages == []
    {
      errorMessages := [];
    }

    /**
     * `show_errors`: one underline and one remembered entry per diagnostic
     * with both ends, in order; the underlines go to the editor.
     */
    method ShowErrors(errors: seq<Diagnostic>, toOffset: LineCol -> int,
                      fullLine: Region -> Region, clean: string -> string)
      returns (underlines: seq<Region>)
      modifies this
      ensures |underlines| == |Spanned(errors)| == |errorMessages|
      ensures forall i :: 0 <= i < |underlines| ==>
        underlines[i] == Underline(Spanned(errors)[i], toOffset) &&
        errorMessages[i] == Entry(Spanned(errors)[i], toOffset, fullLine, clean)
    {
      var messages: seq<(Region, string)> := [];
      underlines := [];
      var i := 0;
      while i < |errors|
        invariant 0 <= i <= |errors|
        invariant |underlines| == |Spanned(errors[..i])| == |messages|
        invariant forall k :: 0 <= k < |underlines| ==>
          underlines[k] == Underline(Spanned(errors[..i])[k], toOffset) &&
          messages[k] == Entry(Spanned(errors[..i])[k], toOffset, fullLine, clean)
      {
        var e := errors[i];
        assert errors[..i + 1][..i] == errors[..i];
        assert Spanned(errors[..i + 1]) == Spanned(errors[..i]) + (if HasSpan(e) then [e] else []);
        if e.start.Some? && e.end.Some? {
          var r := Region(toOffset(e.start.value), toOffset(e.end.value));
          var line := fullLine(r);
          line := Region(line.a - 1, line.b);
          underlines := underlines + [r];
          messages := messages + [(line, clean(e.message))];
        }
        i := i + 1;
      }
      assert errors[..|errors|] == errors;
      errorMessages := messages;
    }

    /**
     * `display_in_error_panel`: the panel is closed once for each remembered
     * entry that misses the caret, until the first one that touches it, whose
     * message is shown with the row where its region begins.
     */
    method DisplayInErrorPanel(caret: Region, rowOf: int -> nat) returns (actions: seq<PanelAction>)
      ensures var k := FirstHit(errorMessages, caret);
        actions == Closes(k) +
          if k < |errorMessages| then [Show(PanelText(rowOf(errorMessages[k].0.Begin()), errorMessages[k].1))] else []
    {
      actions := [];
      var i := 0;
      while i < |errorMessages|
        invariant 0 <= i <= |errorMessages|
        invariant forall j :: 0 <= j < i ==> !Intersects(errorMessages[j].0, caret)
        invariant actions == Closes(i)
      {
        var entry := errorMessages[i];
        if Intersects(entry.0, caret) {
          FirstHitIs(errorMessages, caret, i);
          actions := actions + [Show(PanelText(rowOf(entry.0.Begin()), entry.1))];
          return;
        } else {
          actions := actions + [Close];
        }
        i := i + 1;
      }
      FirstHitIs(errorMessages, caret, i);
    }

    /** `on_post_save`: refresh the remembered errors, then update the panel for the caret. */
    method OnPostSave(errors: seq<Diagnostic>, toOffset: LineCol -> int, fullLine: Region -> Region,
                      clean: string -> string, caret: Region, rowOf: int -> nat)
      returns (underlines: seq<Region>, actions: seq<PanelAction>)
      modifies this
      ensures |underlines| == |Spanned(errors)| == |errorMessages|
      ensures forall i :: 0 <= i < |errorMessages| ==>
        underlines[i] == Underline(Spanned(errors)[i], toOffset) &&
        errorMessages[i] == Entry(Spanned(errors)[i], toOffset, fullLine, clean)
      ensures var k := FirstHit(errorMessages, caret);
        actions == Closes(k) +
          if k < |errorMessages| then [Show(PanelText(rowOf(errorMessages[k].0.Begin()), errorMessages[k].1))] else []
    {
      underlines := ShowErrors(errors, toOffset, fullLine, clean);
      actions := DisplayInErrorPanel(caret, rowOf);
    }
  }

  /** The first hit is the index where the scan stops. */
  lemma {:induction false} FirstHitIs(entries: seq<(Region, string)>, caret: Region, k: nat)
    requires k <= |entries|
    requires forall j :: 0 <= j < k ==> !Intersects(entries[j].0, caret)
    requires k < |entries| ==> Intersects(entries[k].0, caret)
    ensures FirstHit(entries, caret) == k
    decreases k
  {
    if k > 0 {
      FirstHitIs(entries[1..], caret, k - 1);
    }
  }
}
