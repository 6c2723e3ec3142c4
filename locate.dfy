/**
 * Jump to a definition (`MerlinLocate*` commands and `merlin_locate_result`).
 * A locate command sends the cursor's analyzer position, plus either the
 * command's file kind or a name typed by the user; the analyzer answers
 * with a position in another file, a position in the same file, or a
 * message, and the plugin opens the file, moves the caret, or shows the
 * message.
 */
module Locate {
  import opened Common
  import opened Coordinates

  /** The locate commands the plugin registers. */
  datatype LocateCommand =
    | LocateMli | LocateMl | LocateMf
    | LocateNameMli | LocateNameMl | LocateNameMf

  predicate ByName(c: LocateCommand) {
    c.LocateNameMli? || c.LocateNameMl? || c.LocateNameMf?
  }

  /**
   * Each command's `kind()`. The plugin defines `MerlinLocateMf` and
   * `MerlinLocateNameMf` twice; the later definitions are the ones in effect.
   */
  function Kind(c: LocateCommand): string {
    match c
    case LocateMli => "mli"
    case LocateNameMli => "mli"
    case LocateMl => "ml"
    case LocateNameMl => "ml"
    case LocateMf => "mfi"
    case LocateNameMf => "mf"
  }

  /** The `locate` call: position, and the optional `kind` and `ident` arguments. */
  datatype LocateQuery = LocateQuery(at: LineCol, kind: Option<string>, ident: Option<string>)

  /**
   * The query a command sends for the caret at `at`. `name` is what the user
   * typed into the input panel, which only the by-name commands open.
   */
  function QueryFor(c: LocateCommand, at: RowCol, name: string): LocateQuery {
    if ByName(c) then LocateQuery(ToAnalyzer(at), None, Some(name))
    else LocateQuery(ToAnalyzer(at), Some(Kind(c)), None)
  }

  /**
   * Cursor commands send their kind and no name; by-name commands send the
   * name and no kind, so their `kind()` never reaches the analyzer. As a
   * consequence no command ever asks for kind `"mf"`.
   */
  lemma QueryForSpec(c: LocateCommand, at: RowCol, name: string)
    ensures var q := QueryFor(c, at, name);
      q.at == LineCol(at.row + 1, at.col) &&
      (q.kind.Some? <==> !ByName(c)) && (q.ident.Some? <==> ByName(c)) &&
      (q.ident.Some? ==> q.ident.value == name) &&
      (!ByName(c) ==> q.kind == Some(Kind(c))) &&
      (q.kind.Some? ==> q.kind.value in {"mli", "ml", "mfi"}) &&
      q.kind != Some("mf")
  {
  }

  /** The cursor commands ask for three different kinds. */
  lemma CursorKindsDistinct(c: LocateCommand, c': LocateCommand)
    requires !ByName(c) && !ByName(c') && c != c'
    ensures Kind(c) != Kind(c')
  {
  }

  /** The analyzer's answer: a dict with `pos` and perhaps `file`, or a message string. */
  datatype LocateResult = Found(file: Option<string>, pos: LineCol) | Message(text: string)

  /** What the plugin does with an answer. */
  datatype LocateAction =
    | OpenFile(target: string)   // open `target` as an encoded `file:line:col` position
    | MoveCaret(pos: LineCol)    // move the caret in the current view and center it
    | ShowMessage(text: string)  // message dialog

  /** The editor's encoded position; its column is 1-based, hence `col + 1`. */
  function EncodedTarget(file: string, pos: LineCol): string {
    file + ":" + Decimal(pos.line) + ":" + Decimal(pos.col + 1)
  }

  /**
   * How the editor is taken to read an encoded position: the last two
   * `:`-separated fields are line and column. The editor's own parser is not
   * part of this model; this reading is an assumption.
   */
  function DecodeTarget(t: string): Option<(string, int, int)> {
    match LastIndexOf(t, ':')
    case None => None
    case Some(j) =>
      match LastIndexOf(t[..j], ':')
      case None => None
      case Some(i) =>
        match (ParseDecimal(t[i + 1..j]), ParseDecimal(t[j + 1..]))
        case (Some(line), Some(col)) => Some((t[..i], line, col))
        case _ => None
  }

  /** Read as `DecodeTarget` reads it, the target gives back the file, the line, and the column shifted to 1-based, whatever the file name holds. */
  lemma TargetRoundTrip(file: string, pos: LineCol)
    ensures DecodeTarget(EncodedTarget(file, pos)) == Some((file, pos.line, pos.col + 1))
  {
    var l, c := Decimal(pos.line), Decimal(pos.col + 1);
    var t := EncodedTarget(file, pos);
    var j := |file| + 1 + |l|;
    assert t == (file + ":" + l) + ":" + c;
    assert t[j] == ':' && t[j + 1..] == c;
    assert LastIndexOf(t, ':') == Some(j);
    assert t[..j] == file + ":" + l;
    assert t[..j][|file|] == ':' && t[..j][|file| + 1..] == l;
    assert LastIndexOf(t[..j], ':') == Some(|file|);
    assert t[|file| + 1..j] == l;
    assert t[..|file|] == file;
    DecimalRoundTrip(pos.line);
    DecimalRoundTrip(pos.col + 1);
  }

  /** `merlin_locate_result`. */
  function Dispatch(r: LocateResult): LocateAction {
    match r
    case Found(Some(file), pos) => OpenFile(EncodedTarget(file, pos))
    case Found(None, pos) => MoveCaret(pos)
    case Message(text) => ShowMessage(text)
  }

  /**
   * The three-way classification: an answer naming a file opens that file at
   * the answered line and 1-based column, an answer without a file moves the
   * caret to the answered position, and anything else is shown as it is.
   */
  lemma DispatchSpec(r: LocateResult)
    ensures Dispatch(r).OpenFile? <==> r.Found? && r.file.Some?
    ensures Dispatch(r).MoveCaret? <==> r.Found? && r.file.None?
    ensures Dispatch(r).ShowMessage? <==> r.Message?
    ensures Dispatch(r).OpenFile? ==>
      DecodeTarget(Dispatch(r).target) == Some((r.file.value, r.pos.line, r.pos.col + 1))
    ensures Dispatch(r).MoveCaret? ==> Dispatch(r).pos == r.pos
    ensures Dispatch(r).ShowMessage? ==> Dispatch(r).text == r.text
  {
    if r.Found? && r.file.Some? {
      TargetRoundTrip(r.file.value, r.pos);
    }
  }
}
