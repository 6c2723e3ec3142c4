/**
 * Formatting of the analyzer's type-enclosing answer (`MerlinTypeEnclosing`).
 * Each enclosing expression, innermost first, has a type and a tail-call
 * marker; an item is shown as a fenced code block in the view's language,
 * with the marker appended as an OCaml comment. The popup shows the first
 * (innermost) item, the context menu all of them.
 */
module TypeEnclosing {
  import opened Common

  /** One item of the answer; its `start`/`end` span only serves the selection. */
  datatype EnclosingItem = EnclosingItem(typeText: string, tail: string)

  /** The annotation a tail marker adds: `"position"` and `"call"` are marked, anything else is not. */
  function TailNote(tail: string): string {
    if tail == "position" then " (*tail-position*)"
    else if tail == "call" then " (*tail-call*)"
    else ""
  }

  /** `_item_format`: the type, then a note per marker, inside a fence tagged with the language. */
  function ItemFormat(language: string, item: EnclosingItem): (r: string)
    ensures |r| == |language| + |item.typeText| + |TailNote(item.tail)| + 8
    ensures r[..3] == "```" && r[3..3 + |language|] == language && r[3 + |language|] == '\n'
    ensures r[|r| - 4..] == "\n```"
    ensures r[4 + |language|..|r| - 4] == item.typeText + TailNote(item.tail)
  {
    var text := item.typeText;
    var text := if item.tail == "position" then text + " (*tail-position*)" else text;
    var text := if item.tail == "call" then text + " (*tail-call*)" else text;
    var r := "```" + language + "\n" + text + "\n```";
    assert r[..3] == "```" && r[3..3 + |language|] == language && r[3 + |language|] == '\n';
    assert r[4 + |language|..|r| - 4] == text;
    r
  }

  /** The text inside a fence for `language`, or `None` if `r` is not such a fence. */
  function Unfence(language: string, r: string): Option<string> {
    var open := "```" + language + "\n";
    if |r| >= |open| + 4 && r[..|open|] == open && r[|r| - 4..] == "\n```" then Some(r[|open|..|r| - 4])
    else None
  }

  /** The formatted item is a fence whose body is the type with its tail note. */
  lemma FormatUnfences(language: string, item: EnclosingItem)
    ensures Unfence(language, ItemFormat(language, item)) == Some(item.typeText + TailNote(item.tail))
  {
  }

  /** `_items`: every item formatted, in the analyzer's order. */
  function Items(language: string, enclosing: seq<EnclosingItem>): seq<string> {
    if enclosing == [] then [] else [ItemFormat(language, enclosing[0])] + Items(language, enclosing[1..])
  }

  lemma {:induction false} ItemsAt(language: string, enclosing: seq<EnclosingItem>)
    ensures |Items(language, enclosing)| == |enclosing|
    ensures forall i :: 0 <= i < |enclosing| ==> Items(language, enclosing)[i] == ItemFormat(language, enclosing[i])
  {
    if enclosing != [] {
      ItemsAt(language, enclosing[1..]);
    }
  }

  /** `_first`: the innermost item formatted; `None` stands for the `IndexError` of an empty answer. */
  function First(language: string, enclosing: seq<EnclosingItem>): Option<string> {
    if |enclosing| == 0 then None else Some(ItemFormat(language, enclosing[0]))
  }

  /** The popup shows exactly the menu's first entry, and fails only on an empty answer. */
  lemma FirstIsFirstItem(language: string, enclosing: seq<EnclosingItem>)
    ensures First(language, enclosing).None? <==> enclosing == []
    ensures enclosing != [] ==> First(language, enclosing) == Some(Items(language, enclosing)[0])
  {
  }
}
