/** The document extractor of api_parser.py (and its copy in fetch_types.py):
    a six-state machine driven by the start-tag, end-tag and text events of
    the HTML documentation page. It collects section and subsection titles,
    description chunks and table rows, and emits one `Token` per documented
    type or method. */
module ApiParser {
  import opened Text

  /** Sections that are skipped wholesale. */
  const SkipSections: set<string> := {
    "Recent changes",
    "Authorizing your bot",
    "Do I need a Local Bot API Server",
    "Making requests",
    "Using a Local Bot API Server",
    "Accent colors",
    "Profile accent colors",
    "Determining list of commands",
    "Sending files",
    "Inline mode objects",
    "Inline mode methods",
    "Formatting options"
  }

  /** Methods for which no request, response or interface method is emitted. */
  const SkipMethods: set<string> := {"sendMediaGroup"}

  /** The `required` field holds a boolean by default, the third cell of a
      four-cell row ("Yes", "Optional"), or "" for a three-cell row and for
      merged fields. */
  datatype Required = Flag(flag: bool) | Text(text: string)

  /** A struct field or method argument. */
  datatype Param = Param(name: string, typeName: string, required: Required, description: string)

  /** A struct or method definition. */
  datatype Token = Token(name: string, description: string, params: seq<Param>)

  /** Which part of the document is being read. */
  datatype State = Document | Section | Subsection | Table | TableRow | TableCell

  /** What the HTML tokenizer reports. Tag attributes are ignored by the
      parser and are not modelled. */
  datatype Event = Start(tag: string) | End(tag: string) | Data(text: string)

  /** All the fields of a parser. */
  datatype ParserState = ParserState(
    tokens: seq<Token>,
    state: State,
    section: string,
    subsection: string,
    description: seq<string>,
    table: seq<Param>,
    tableRow: seq<string>,
    tableCell: string)

  const Initial: ParserState := ParserState([], Document, "", "", [], [], [], "")

  /** The tags that open a part of the document, and the part they open. */
  const OpeningTags: map<string, State> :=
    map["h3" := Section, "h4" := Subsection, "tr" := TableRow, "td" := TableCell, "table" := Table]

  /** The (state, tag) pairs an end tag closes, and the state it returns to. */
  const Closing: map<(State, string), State> :=
    map[(Section, "h3") := Document, (Subsection, "h4") := Document,
        (TableRow, "tr") := Table, (TableCell, "td") := TableRow,
        (Table, "table") := Document]

  /** The state after a start tag. */
  function StartTagState(tag: string, current: State): (next: State)
    ensures tag in OpeningTags ==> next == OpeningTags[tag]
    ensures tag !in OpeningTags ==> next == current
  {
    match tag
    case "h3" => Section
    case "h4" => Subsection
    case "tr" => TableRow
    case "td" => TableCell
    case "table" => Table
    case _ => current
  }

  /** The state after an end tag: the nested lookup in a per-state table,
      which falls back to the current state. */
  function EndTagState(current: State, tag: string): (next: State)
    ensures (current, tag) in Closing ==> next == Closing[(current, tag)]
    ensures (current, tag) !in Closing ==> next == current
  {
    match current
    case Section => if tag == "h3" then Document else current
    case Subsection => if tag == "h4" then Document else current
    case TableRow => if tag == "tr" then Table else current
    case TableCell => if tag == "td" then TableRow else current
    case Table => if tag == "table" then Document else current
    case Document => current
  }

  predicate Skipping(section: string, subsection: string) {
    section in SkipSections || subsection in SkipSections
  }

  /** The parameter a table row describes: three cells are name, type and
      description; four cells add the required column; any other row is
      dropped. */
  function RowParams(row: seq<string>): (ps: seq<Param>)
    ensures |ps| == 1 <==> |row| == 3 || |row| == 4
    ensures |ps| <= 1
    ensures |ps| == 1 ==>
      ps[0].name == row[0] && ps[0].typeName == row[1] && ps[0].description == row[|row| - 1]
    ensures |ps| == 1 ==> ps[0].required == if |row| == 3 then Text("") else Text(row[2])
  {
    if |row| == 3 then [Param(row[0], row[1], Text(""), row[2])]
    else if |row| == 4 then [Param(row[0], row[1], Text(row[2]), row[3])]
    else []
  }

  /** The token the held subsection, description and table make. */
  function Pending(p: ParserState): Token {
    Token(p.subsection, Join(p.description, " "), p.table)
  }

  /** Emit the pending token and reset what it was made of. */
  function Flush(p: ParserState): ParserState {
    p.(tokens := p.tokens + [Pending(p)], subsection := "", description := [], table := [])
  }

  /** `handle_starttag` */
  function OnStart(p: ParserState, tag: string): ParserState {
    var q := p.(state := StartTagState(tag, p.state));
    if q.state == Subsection && q.subsection != "" && !Skipping(q.section, q.subsection) then Flush(q)
    else q
  }

  /** `handle_endtag` */
  function OnEnd(p: ParserState, tag: string): ParserState {
    var q := p.(state := EndTagState(p.state, tag));
    if Skipping(q.section, q.subsection) then q
    else if p.state == TableCell && q.state == TableRow then
      q.(tableRow := q.tableRow + [q.tableCell], tableCell := "")
    else if p.state == TableRow && q.state == Table && q.tableRow != [] then
      q.(table := q.table + RowParams(q.tableRow), tableRow := [])
    else if p.state == Table && q.state == Document then Flush(q)
    else q
  }

  /** `handle_data` */
  function OnData(p: ParserState, data: string): ParserState {
    var q :=
      if p.state == Section then p.(section := data)
      else if p.state == Subsection then p.(subsection := data)
      else p;
    if Skipping(q.section, q.subsection) then q
    else if q.state == TableCell then q.(tableCell := q.tableCell + data)
    else if q.state == Document then q.(description := q.description + [Strip(data)])
    else q
  }

  function Step(p: ParserState, e: Event): ParserState {
    match e
    case Start(tag) => OnStart(p, tag)
    case End(tag) => OnEnd(p, tag)
    case Data(text) => OnData(p, text)
  }

  /** The parser after the events, fed one by one. */
  function Run(p: ParserState, events: seq<Event>): ParserState
    decreases |events|
  {
    if events == [] then p else Step(Run(p, events[..|events| - 1]), events[|events| - 1])
  }

  class Parser {
    var tokens: seq<Token>
    var state: State
    var section: string
    var subsection: string
    var description: seq<string>
    var table: seq<Param>
    var tableRow: seq<string>
    var tableCell: string

    function Snapshot(): ParserState
      reads this
    {
      ParserState(tokens, state, section, subsection, description, table, tableRow, tableCell)
    }

    constructor ()
      ensures Snapshot() == Initial
    {
      tokens := [];
      state := Document;
      section := "";
      subsection := "";
      description := [];
      table := [];
      tableRow := [];
      tableCell := "";
    }

    method HandleStartTag(tag: string)
      modifies this
      ensures Snapshot() == OnStart(old(Snapshot()), tag)
    {
      state := StartTagState(tag, state);
      if state == Subsection && subsection != "" && !Skipping(section, subsection) {
        tokens := tokens + [Token(subsection, Join(description, " "), table)];
        subsection := "";
        description := [];
        table := [];
      }
    }

    method HandleEndTag(tag: string)
      modifies this
      ensures Snapshot() == OnEnd(old(Snapshot()), tag)
    {
      var oldState := state;
      state := EndTagState(state, tag);
      if Skipping(section, subsection) {
        return;
      }
      if oldState == TableCell && state == TableRow {
        tableRow := tableRow + [tableCell];
        tableCell := "";
      } else if oldState == TableRow && state == Table && tableRow != [] {
        var row := tableRow;
        if |row| == 3 {
          table := table + [Param(row[0], row[1], Text(""), row[2])];
        } else if |tableRow| == 4 {
          table := table + [Param(row[0], row[1], Text(row[2]), row[3])];
        }
        tableRow := [];
      } else if oldState == Table && state == Document {
        tokens := tokens + [Token(subsection, Join(description, " "), table)];
        subsection := "";
        description := [];
        table := [];
      }
    }

    method HandleData(data: string)
      modifies this
      ensures Snapshot() == OnData(old(Snapshot()), data)
    {
      if state == Section {
        section := data;
      } else if state == Subsection {
        subsection := data;
      }
      if !Skipping(section, subsection) {
        if state == TableCell {
          tableCell := tableCell + data;
        } else if state == Document {
          description := description + [Strip(data)];
        }
      }
    }

    /** `feed`, after tokenisation: the handlers in event order. */
    method Feed(events: seq<Event>)
      modifies this
      ensures Snapshot() == Run(old(Snapshot()), events)
    {
      ghost var start := Snapshot();
      var i := 0;
      while i < |events|
        invariant 0 <= i <= |events|
        invariant Snapshot() == Run(start, events[..i])
      {
        assert events[..i + 1][..i] == events[..i];
        match events[i] {
          case Start(tag) => HandleStartTag(tag);
          case End(tag) => HandleEndTag(tag);
          case Data(text) => HandleData(text);
        }
        i := i + 1;
      }
      assert events[..i] == events;
    }
  }

  /** A start tag sets the state from the tag alone, whatever the current
      state; any other tag leaves the state as it was. */
  lemma StartTagTransition(p: ParserState, tag: string)
    ensures tag in OpeningTags ==> OnStart(p, tag).state == OpeningTags[tag]
    ensures tag !in OpeningTags ==> OnStart(p, tag).state == p.state
    ensures OnStart(p, tag).section == p.section
    ensures OnStart(p, tag).tableRow == p.tableRow && OnStart(p, tag).tableCell == p.tableCell
  {
  }

  /** An end tag changes the state exactly for the five closing pairs, and
      then only outwards: to the document, a table or a row. */
  lemma EndTagTransition(p: ParserState, tag: string)
    ensures OnEnd(p, tag).state != p.state <==> (p.state, tag) in Closing
    ensures (p.state, tag) in Closing ==> OnEnd(p, tag).state in {Document, Table, TableRow}
    ensures OnEnd(p, tag).section == p.section
  {
  }

  /** A start tag emits a token exactly when it leaves the parser in a
      subsection, a subsection title is held, and neither title is skipped;
      the token is made of what was held, and all of it is reset. */
  lemma StartTagFlush(p: ParserState, tag: string)
    ensures var q := OnStart(p, tag);
      var flush := StartTagState(tag, p.state) == Subsection && p.subsection != ""
                   && !Skipping(p.section, p.subsection);
      (|q.tokens| == |p.tokens| + 1 <==> flush)
      && (flush ==> q.tokens == p.tokens + [Token(p.subsection, Join(p.description, " "), p.table)]
                    && q.subsection == "" && q.description == [] && q.table == [])
      && (!flush ==> q == p.(state := q.state))
  {
  }

  /** Closing a cell moves its text onto the row and empties it. */
  lemma CellClose(p: ParserState)
    requires p.state == TableCell && !Skipping(p.section, p.subsection)
    ensures var q := OnEnd(p, "td");
      q.state == TableRow && q.tableRow == p.tableRow + [p.tableCell] && q.tableCell == ""
      && q.table == p.table && q.tokens == p.tokens
  {
  }

  /** Closing a non-empty row adds the parameter it describes, if any, and
      empties the row. */
  lemma RowClose(p: ParserState)
    requires p.state == TableRow && !Skipping(p.section, p.subsection) && p.tableRow != []
    ensures var q := OnEnd(p, "tr");
      q.state == Table && q.tableRow == [] && q.table == p.table + RowParams(p.tableRow)
      && q.tokens == p.tokens
  {
  }

  /** Closing a table always emits a token, even with no subsection title,
      and resets the subsection, description and table. */
  lemma TableClose(p: ParserState)
    requires p.state == Table && !Skipping(p.section, p.subsection)
    ensures var q := OnEnd(p, "table");
      q.state == Document && q.tokens == p.tokens + [Pending(p)]
      && q.subsection == "" && q.description == [] && q.table == []
  {
  }

  /** Inside a skipped section an end tag changes nothing but the state. */
  lemma SkipEndTag(p: ParserState, tag: string)
    requires Skipping(p.section, p.subsection)
    ensures OnEnd(p, tag) == p.(state := EndTagState(p.state, tag))
  {
  }

  /** Text changes the title of the part being read, and, unless a title is
      skipped, accumulates: cell text is concatenated, document text is
      stripped and added to the description, and text inside a table or row
      outside a cell is ignored. */
  lemma DataRules(p: ParserState, data: string)
    ensures var q := OnData(p, data);
      q.state == p.state && q.tokens == p.tokens
      && (p.state == Section ==> q.section == data)
      && (p.state == Subsection ==> q.subsection == data)
      && (Skipping(q.section, q.subsection) ==>
            q == p.(section := q.section, subsection := q.subsection))
      && (!Skipping(q.section, q.subsection) && p.state == TableCell ==>
            q == p.(tableCell := p.tableCell + data))
      && (!Skipping(q.section, q.subsection) && p.state == Document ==>
            q == p.(description := p.description + [Strip(data)]))
      && (p.state in {Table, TableRow} ==> q == p)
  {
  }

  /** No event emits a token while a title is skipped. */
  lemma SkipKeepsTokens(p: ParserState, e: Event)
    requires Skipping(p.section, p.subsection)
    ensures Step(p, e).tokens == p.tokens
  {
  }

  /** Every event adds at most one token and never alters earlier ones. */
  lemma StepAppends(p: ParserState, e: Event)
    ensures var q := Step(p, e);
      q.tokens == p.tokens || (|q.tokens| == |p.tokens| + 1 && q.tokens[..|p.tokens|] == p.tokens)
  {
  }

  /** Tokens are only ever appended: the tokens before a run of events are a
      prefix of the tokens after it. */
  lemma {:induction false} RunAppends(p: ParserState, events: seq<Event>)
    ensures |p.tokens| <= |Run(p, events).tokens|
    ensures Run(p, events).tokens[..|p.tokens|] == p.tokens
    ensures |Run(p, events).tokens| <= |p.tokens| + |events|
    decreases |events|
  {
    if events != [] {
      var mid := Run(p, events[..|events| - 1]);
      RunAppends(p, events[..|events| - 1]);
      StepAppends(mid, events[|events| - 1]);
      var q := Step(mid, events[|events| - 1]);
      assert q.tokens[..|mid.tokens|] == mid.tokens;
      assert q.tokens[..|p.tokens|] == mid.tokens[..|p.tokens|];
    }
  }
}
