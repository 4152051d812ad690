/** The connection and query status shown above the SQL editor: the status
    values, the page each one selects, and the stack that shows them. */
module StatusStacks {
  import Wrappers

  datatype Status =
    | Disconnected
      /** Connected, and no statement executed yet. */
    | Connected
    | ConnectionErr(msg: string)
      /** The last non-select statements all succeeded. */
    | StatementExecuted(msg: string)
      /** The last query or statement failed. */
    | SqlErr(msg: string)
      /** The last queries all succeeded. */
    | Ok

  /** The status boxes, in the order the stack registers them. */
  const Boxes: seq<string> := ["disconnected_box", "connected_box", "conn_err_box", "stmt_update_box", "sql_err_box"]

  /** The box a status selects: Ok shares the first box with Disconnected. */
  function Index(s: Status): (r: nat)
    ensures r < |Boxes|
    ensures r == 0 <==> s.Disconnected? || s.Ok?
  {
    match s
    case Disconnected => 0
    case Connected => 1
    case ConnectionErr(_) => 2
    case StatementExecuted(_) => 3
    case SqlErr(_) => 4
    case Ok => 0
  }

  /** The text a status carries, if any. */
  function Message(s: Status): (r: Wrappers.Option<string>)
    ensures r.Some? <==> s.ConnectionErr? || s.StatementExecuted? || s.SqlErr?
    ensures r.Some? ==> r.value == s.msg
  {
    match s
    case ConnectionErr(m) => Wrappers.Some(m)
    case StatementExecuted(m) => Wrappers.Some(m)
    case SqlErr(m) => Wrappers.Some(m)
    case _ => Wrappers.None
  }

  predicate SameVariant(s: Status, t: Status)
  {
    s.Disconnected? == t.Disconnected? && s.Connected? == t.Connected? && s.ConnectionErr? == t.ConnectionErr?
    && s.StatementExecuted? == t.StatementExecuted? && s.SqlErr? == t.SqlErr? && s.Ok? == t.Ok?
  }

  /** Apart from Ok, every status has a box of its own, and each box is the
      one named after the status. */
  lemma IndexSelectsBox(s: Status, t: Status)
    requires !s.Ok? && !t.Ok?
    ensures Index(s) == Index(t) <==> SameVariant(s, t)
    ensures s.Disconnected? <==> Boxes[Index(s)] == "disconnected_box"
    ensures s.Connected? <==> Boxes[Index(s)] == "connected_box"
    ensures s.ConnectionErr? <==> Boxes[Index(s)] == "conn_err_box"
    ensures s.StatementExecuted? <==> Boxes[Index(s)] == "stmt_update_box"
    ensures s.SqlErr? <==> Boxes[Index(s)] == "sql_err_box"
  {
  }

  /** The child the parent stack shows: the widget the status stack stands
      beside, or the status stack itself. */
  datatype Page = AltPage | StatusPage

  class StatusStack {
    var status: Status
    var parentPage: Page
    /** Index of the visible box of the status stack. */
    var box: nat
    var stmtLabel: string
    var sqlErrLabel: string
    var connErrLabel: string

    predicate Valid()
      reads this
    {
      box < |Boxes|
    }

    /** The label that shows a status's message. */
    function LabelOf(s: Status): string
      reads this
    {
      match s
      case StatementExecuted(_) => stmtLabel
      case SqlErr(_) => sqlErrLabel
      case ConnectionErr(_) => connErrLabel
      case _ => ""
    }

    /** The stack shows status s: its page, its box and its message. */
    predicate Shows(s: Status)
      reads this
    {
      if s.Ok? then parentPage == AltPage
      else parentPage == StatusPage && box == Index(s) && (Message(s).Some? ==> LabelOf(s) == Message(s).value)
    }

    /** A new stack starts Disconnected with the status page visible; the
        labels start empty. */
    constructor()
      ensures Valid()
      ensures status == Disconnected && parentPage == StatusPage && box == 0
      ensures stmtLabel == "" && sqlErrLabel == "" && connErrLabel == ""
    {
      status := Disconnected;
      parentPage := StatusPage;
      box := 0;
      stmtLabel := "";
      sqlErrLabel := "";
      connErrLabel := "";
    }

    method GetStatus() returns (r: Wrappers.Option<Status>)
      ensures r == Wrappers.Some(status)
    {
      r := Wrappers.Some(status);
    }

    /** Stores the status and shows it; only the label of the status's own
        message changes. */
    method Update(s: Status)
      requires Valid()
      modifies this
      ensures Valid() && status == s && Shows(s)
      ensures s.Ok? ==> box == old(box)
      ensures s.StatementExecuted? ==> stmtLabel == s.msg
      ensures !s.StatementExecuted? ==> stmtLabel == old(stmtLabel)
      ensures s.SqlErr? ==> sqlErrLabel == s.msg
      ensures !s.SqlErr? ==> sqlErrLabel == old(sqlErrLabel)
      ensures s.ConnectionErr? ==> connErrLabel == s.msg
      ensures !s.ConnectionErr? ==> connErrLabel == old(connErrLabel)
    {
      status := s;
      if s.Ok? {
        parentPage := AltPage;
        return;
      }
      parentPage := StatusPage;
      box := Index(s);
      match s {
        case StatementExecuted(txt) => stmtLabel := txt;
        case SqlErr(txt) => sqlErrLabel := txt;
        case ConnectionErr(txt) => connErrLabel := txt;
        case _ =>
      }
    }

    /** Shows the current status again, and then the status page even when
        the status is Ok: an Ok status leaves whatever box was last shown. */
    method ShowCurrStatus()
      requires Valid()
      modifies this
      ensures Valid() && status == old(status) && parentPage == StatusPage
      ensures !status.Ok? ==> Shows(status)
      ensures status.Ok? ==> box == old(box)
      ensures stmtLabel == (if status.StatementExecuted? then status.msg else old(stmtLabel))
      ensures sqlErrLabel == (if status.SqlErr? then status.msg else old(sqlErrLabel))
      ensures connErrLabel == (if status.ConnectionErr? then status.msg else old(connErrLabel))
    {
      Update(status);
      parentPage := StatusPage;
    }

    /** The other widget when the status is Ok, the status page otherwise. */
    method TryShowAltOrConnected()
      modifies this
      ensures parentPage == (if status.Ok? then AltPage else StatusPage)
      ensures status == old(status) && box == old(box)
      ensures stmtLabel == old(stmtLabel) && sqlErrLabel == old(sqlErrLabel) && connErrLabel == old(connErrLabel)
    {
      parentPage := if status.Ok? then AltPage else StatusPage;
    }

    /** The other widget when the status is Connected or Ok, the status page
        otherwise. */
    method TryShowAlt()
      modifies this
      ensures parentPage == (if status.Connected? || status.Ok? then AltPage else StatusPage)
      ensures status == old(status) && box == old(box)
      ensures stmtLabel == old(stmtLabel) && sqlErrLabel == old(sqlErrLabel) && connErrLabel == old(connErrLabel)
    {
      parentPage := if status.Connected? || status.Ok? then AltPage else StatusPage;
    }
  }
}
