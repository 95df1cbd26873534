/** The results panel: a summary callout, then either the visual view of
    the record (chosen by the mode alone) or its serialised JSON, and a copy
    button. `JSON.stringify` is passed in as a function. */
module ResultsViewer {

  import opened Types

  datatype Tab = Visual | Json

  const NoTextMessage := "No text extracted."
  const NoFieldsMessage := "No form fields detected."
  const NoTablesMessage := "No tables detected."

  /** The style of a table row: the first row of each table is a header. */
  datatype RowStyle = HeaderRow | DataRow

  datatype GridRow = GridRow(style: RowStyle, cells: seq<string>)

  /** What the visual tab shows. */
  datatype VisualView =
    | TextBlock(content: string)        // the preformatted text block
    | FieldRows(fields: seq<FormField>)   // one key/value row per field
    | Grids(grids: seq<seq<GridRow>>)     // one grid per table
    | Placeholder(message: string)       // the italic "nothing detected" line

  /** What the panel's content area shows. */
  datatype Body = VisualBody(view: VisualView) | JsonBody(text: string)

  datatype Panel = Panel(callout: Option<string>, body: Body)

  /** `{data.rawText || "No text extracted."}`: the text, or the placeholder
      text when it is absent or empty. */
  function TextOrPlaceholder(rawText: Option<string>): (shown: string)
    ensures rawText.Some? && rawText.value != "" ==> shown == rawText.value
    ensures rawText.None? || rawText.value == "" ==> shown == NoTextMessage
  {
    if rawText.Some? && rawText.value != "" then rawText.value else NoTextMessage
  }

  /** One table as a grid: every row kept in order with its cells; row 0 in
      header style, every other row in data style. */
  function RenderTable(table: Table): (grid: seq<GridRow>)
    ensures |grid| == |table|
    ensures forall r :: 0 <= r < |table| ==> grid[r].cells == table[r]
    ensures forall r :: 0 <= r < |table| ==> (grid[r].style == HeaderRow <==> r == 0)
  {
    seq(|table|, r requires 0 <= r < |table| => GridRow(if r == 0 then HeaderRow else DataRow, table[r]))
  }

  /** `renderVisual`: dispatch on the mode alone. */
  function RenderVisual(mode: ExtractionMode, data: ExtractedData): (v: VisualView)
    ensures mode == Text ==> v == TextBlock(TextOrPlaceholder(data.rawText))
    ensures mode == Forms ==>
              if data.forms.Some? && |data.forms.value| > 0 then v == FieldRows(data.forms.value)
              else v == Placeholder(NoFieldsMessage)
    ensures mode == Tables && data.tables.Some? && |data.tables.value| > 0 ==>
              v.Grids? && |v.grids| == |data.tables.value|
              && forall t :: 0 <= t < |v.grids| ==> v.grids[t] == RenderTable(data.tables.value[t])
    ensures mode == Tables && (data.tables.None? || |data.tables.value| == 0) ==>
              v == Placeholder(NoTablesMessage)
  {
    match mode
    case Text => TextBlock(TextOrPlaceholder(data.rawText))
    case Forms =>
      if data.forms.Some? && |data.forms.value| > 0 then FieldRows(data.forms.value)
      else Placeholder(NoFieldsMessage)
    case Tables =>
      if data.tables.Some? && |data.tables.value| > 0 then
        var tables := data.tables.value;
        Grids(seq(|tables|, t requires 0 <= t < |tables| => RenderTable(tables[t])))
      else Placeholder(NoTablesMessage)
  }

  /** What each mode shows when it has nothing to show. */
  function EmptyView(mode: ExtractionMode): VisualView {
    match mode
    case Text => TextBlock(NoTextMessage)
    case Forms => Placeholder(NoFieldsMessage)
    case Tables => Placeholder(NoTablesMessage)
  }

  /** The visual view never reads `error`. */
  lemma VisualIgnoresError(mode: ExtractionMode, data: ExtractedData, e: Option<string>)
    ensures RenderVisual(mode, data) == RenderVisual(mode, data.(error := e))
  {
  }

  /** So an error record shows only its mode's placeholder, and its message
      does not appear in the visual view. */
  lemma ErrorShowsPlaceholder(mode: ExtractionMode, message: string)
    ensures RenderVisual(mode, ErrorResult(message)) == EmptyView(mode)
  {
  }

  /** Every cell of every table appears in the tables view, at its own
      table, row and column, and only row 0 is a header row. */
  lemma CellsShownInPlace(data: ExtractedData, t: nat, r: nat, c: nat)
    requires data.tables.Some? && t < |data.tables.value|
    requires r < |data.tables.value[t]| && c < |data.tables.value[t][r]|
    ensures var v := RenderVisual(Tables, data);
            v.Grids? && t < |v.grids| && r < |v.grids[t]| && c < |v.grids[t][r].cells|
            && v.grids[t][r].cells[c] == data.tables.value[t][r][c]
            && (v.grids[t][r].style == HeaderRow <==> r == 0)
  {
  }

  /** The callout shows the summary when it is present and non-empty. */
  function SummaryCallout(data: ExtractedData): (callout: Option<string>)
    ensures callout.Some? <==> data.summary.Some? && data.summary.value != ""
    ensures callout.Some? ==> callout == data.summary
  {
    if data.summary.Some? && data.summary.value != "" then data.summary else None
  }

  /** The panel: the summary callout above the content of the active tab,
      which is the mode's visual view or the serialised record. */
  function Render(tab: Tab, mode: ExtractionMode, data: ExtractedData,
                  stringify: ExtractedData -> string): (panel: Panel)
    ensures panel.callout == SummaryCallout(data)
    ensures tab == Visual ==> panel.body == VisualBody(RenderVisual(mode, data))
    ensures tab == Json ==> panel.body == JsonBody(stringify(data))
  {
    Panel(SummaryCallout(data),
          if tab == Visual then VisualBody(RenderVisual(mode, data)) else JsonBody(stringify(data)))
  }

  /** The callout depends on neither tab nor mode. */
  lemma CalloutIndependentOfView(t1: Tab, m1: ExtractionMode, t2: Tab, m2: ExtractionMode,
                                 data: ExtractedData, stringify: ExtractedData -> string)
    ensures Render(t1, m1, data, stringify).callout == Render(t2, m2, data, stringify).callout
    ensures Render(t1, m1, data, stringify).callout.Some?
            <==> data.summary.Some? && data.summary.value != ""
  {
  }

  /** `handleCopy`'s text: the serialised record, except on the visual tab
      in text mode, where it is the raw text or the empty string. */
  function CopyText(tab: Tab, mode: ExtractionMode, data: ExtractedData,
                    stringify: ExtractedData -> string): (text: string)
    ensures tab == Json ==> text == stringify(data)
    ensures tab == Visual && mode == Text ==> text == data.rawText.GetOr("")
    ensures tab == Visual && mode != Text ==> text == stringify(data)
  {
    if tab == Json then stringify(data)
    else if mode == Text then data.rawText.GetOr("")
    else stringify(data)
  }

  /** Copying yields what the JSON tab shows, and on a text-mode visual tab
      the text shown; when that tab shows its placeholder, the copy is the
      empty string instead. */
  lemma CopyMatchesShown(tab: Tab, mode: ExtractionMode, data: ExtractedData,
                         stringify: ExtractedData -> string)
    ensures tab == Json ==>
              Render(tab, mode, data, stringify).body == JsonBody(CopyText(tab, mode, data, stringify))
    ensures tab == Visual && mode == Text && data.rawText.Some? && data.rawText.value != "" ==>
              Render(tab, mode, data, stringify).body == VisualBody(TextBlock(CopyText(tab, mode, data, stringify)))
    ensures tab == Visual && mode == Text && (data.rawText.None? || data.rawText.value == "") ==>
              && Render(tab, mode, data, stringify).body == VisualBody(TextBlock(NoTextMessage))
              && CopyText(tab, mode, data, stringify) == ""
  {
  }

  /** The viewer's own state: the active tab and the "copied" indicator. */
  class Viewer {
    var activeTab: Tab
    var copied: bool

    /** The visual tab is active at first. */
    constructor ()
      ensures activeTab == Visual && !copied
    {
      activeTab := Visual;
      copied := false;
    }

    method SelectTab(tab: Tab)
      modifies this
      ensures activeTab == tab && copied == old(copied)
    {
      activeTab := tab;
    }

    /** The copy button: what goes to the clipboard, and the indicator set.
        On the JSON tab the clipboard holds the text shown; on the visual tab
        in text mode it holds the text block shown, or nothing when the
        placeholder is shown. */
    method Copy(mode: ExtractionMode, data: ExtractedData, stringify: ExtractedData -> string)
      returns (clipboard: string)
      modifies this
      ensures clipboard == CopyText(activeTab, mode, data, stringify)
      ensures copied && activeTab == old(activeTab)
      ensures activeTab == Json ==> View(mode, data, stringify).body == JsonBody(clipboard)
      ensures activeTab == Visual && mode == Text ==>
                if data.rawText.Some? && data.rawText.value != "" then
                  View(mode, data, stringify).body == VisualBody(TextBlock(clipboard))
                else
                  View(mode, data, stringify).body == VisualBody(TextBlock(NoTextMessage)) && clipboard == ""
    {
      clipboard := CopyText(activeTab, mode, data, stringify);
      copied := true;
      CopyMatchesShown(activeTab, mode, data, stringify);
    }

    /** What the panel shows now, for the mode and record the page passes. */
    function View(mode: ExtractionMode, data: ExtractedData, stringify: ExtractedData -> string): Panel
      reads this
    {
      Render(activeTab, mode, data, stringify)
    }
  }
}
