/** Status validation, the title matrix, time rendering and the notification text of `processEvent`. */
module Composer {
  import opened JsValues
  import opened Wrappers
  import opened Requests
  import opened Lines

  /** The three statuses the notifier acts on. */
  datatype Status = Pending | Approved | Rejected

  function StatusName(st: Status): string {
    match st
    case Pending => "pending"
    case Approved => "approved"
    case Rejected => "rejected"
  }

  /** `['pending','approved','rejected'].includes(status)`, and which of them it is. */
  function ParseStatus(v: Value): (r: Option<Status>)
    ensures r.Some? <==> v in {Text("pending"), Text("approved"), Text("rejected")}
    ensures r.Some? ==> v == Text(StatusName(r.value))
  {
    match v
    case Text(s) =>
      if s == "pending" then Some(Pending)
      else if s == "approved" then Some(Approved)
      else if s == "rejected" then Some(Rejected)
      else None
    case _ => None
  }

  /** The title of the message, by collection kind and status. */
  function Title(isWithdraw: bool, st: Status): string {
    if isWithdraw then
      match st
      case Pending => "\U{1F4E4} New Withdraw Request"
      case Approved => "\U{1F4E4} Withdraw Approved"
      case Rejected => "\U{1F4E4} Withdraw Rejected"
    else
      match st
      case Pending => "\U{1F4E5} New Deposit Request"
      case Approved => "\U{1F4E5} Deposit Approved"
      case Rejected => "\U{1F4E5} Deposit Rejected"
  }

  /** The six titles are pairwise distinct, and the first character tells the collection apart. */
  lemma TitleDistinguishes(w1: bool, s1: Status, w2: bool, s2: Status)
    ensures Title(w1, s1) == Title(w2, s2) <==> w1 == w2 && s1 == s2
    ensures Title(w1, s1)[0] == (if w1 then '\U{1F4E4}' else '\U{1F4E5}')
  {
  }

  /** The instant `formatTime` renders: the stored seconds when truthy, otherwise the clock. */
  function TimeMillis(createdAt: Option<Timestamp>, nowMillis: int): int {
    if createdAt.Some? && createdAt.value.seconds != 0 then createdAt.value.seconds * 1000 else nowMillis
  }

  /**
   * `formatTime`: `localeString` stands for `Date.toLocaleString('en-GB',
   * {timeZone: 'Asia/Dhaka'})` on a millisecond epoch, `nowMillis` for the clock.
   */
  function FormatTime(createdAt: Option<Timestamp>, nowMillis: int, localeString: int -> string): string {
    localeString(TimeMillis(createdAt, nowMillis))
  }

  /** `data.id || docId` */
  function DisplayId(d: DocData, docId: string): Value {
    Or(d.id, Text(docId))
  }

  /** `data.Number || data.number || 'N/A'` */
  function AccountNumber(d: DocData): Value {
    Or(Or(d.Number, d.number), Text("N/A"))
  }

  /** `trxId || 'N/A'` */
  function TransactionId(d: DocData): Value {
    Or(d.trxId, Text("N/A"))
  }

  /** Whether the message carries a `TrxId:` line. */
  predicate ShowsTrxId(isWithdraw: bool, st: Status) {
    !isWithdraw || st == Approved
  }

  /** The message text, built by successive appends as `processEvent` builds it. */
  function Message(d: DocData, docId: string, isWithdraw: bool, st: Status, time: string): string {
    var head := Title(isWithdraw, st) + "\nid: " + Render(DisplayId(d, docId))
      + "\nAmount: " + Render(d.amount) + "\nNumber: " + Render(AccountNumber(d));
    var withTrx := if !isWithdraw || st == Approved then head + "\nTrxId: " + Render(TransactionId(d)) else head;
    withTrx + "\nMethod: " + Render(d.paymentMethod) + "\nTime: " + time
  }

  /** The lines the message is made of, in their fixed order. */
  function MessageLines(d: DocData, docId: string, isWithdraw: bool, st: Status, time: string): seq<string> {
    [Title(isWithdraw, st),
     "id: " + Render(DisplayId(d, docId)),
     "Amount: " + Render(d.amount),
     "Number: " + Render(AccountNumber(d))]
    + (if ShowsTrxId(isWithdraw, st) then ["TrxId: " + Render(TransactionId(d))] else [])
    + ["Method: " + Render(d.paymentMethod),
       "Time: " + time]
  }

  predicate StartsWith(line: string, prefix: string) {
    |prefix| <= |line| && line[..|prefix|] == prefix
  }

  /** Some line of the message is the `TrxId:` line. */
  predicate HasTrxIdLine(lines: seq<string>) {
    exists k :: 0 <= k < |lines| && StartsWith(lines[k], "TrxId: ")
  }

  /** The appended text is exactly the message lines joined by line breaks. */
  lemma MessageIsJoinedLines(d: DocData, docId: string, isWithdraw: bool, st: Status, time: string)
    ensures Message(d, docId, isWithdraw, st, time) == Join(MessageLines(d, docId, isWithdraw, st, time))
  {
    AppendsAreLines(Title(isWithdraw, st), Render(DisplayId(d, docId)), Render(d.amount), Render(AccountNumber(d)),
      ShowsTrxId(isWithdraw, st), Render(TransactionId(d)), Render(d.paymentMethod), time);
  }

  /**
   * When no field the message shows renders with a line break, it splits back into
   * exactly its lines: six of them, or seven with the `TrxId:` line, which is
   * there exactly for deposits and for approved withdrawals.
   */
  lemma MessageReadsBack(d: DocData, docId: string, isWithdraw: bool, st: Status, time: string)
    requires NoLineBreak(Render(DisplayId(d, docId))) && NoLineBreak(Render(d.amount))
    requires NoLineBreak(Render(AccountNumber(d)))
    requires ShowsTrxId(isWithdraw, st) ==> NoLineBreak(Render(TransactionId(d)))
    requires NoLineBreak(Render(d.paymentMethod)) && NoLineBreak(time)
    ensures Split(Message(d, docId, isWithdraw, st, time)) == MessageLines(d, docId, isWithdraw, st, time)
    ensures |MessageLines(d, docId, isWithdraw, st, time)| == if ShowsTrxId(isWithdraw, st) then 7 else 6
    ensures HasTrxIdLine(Split(Message(d, docId, isWithdraw, st, time))) <==> !isWithdraw || st == Approved
  {
    MessageIsJoinedLines(d, docId, isWithdraw, st, time);
    LinesReadBack(Title(isWithdraw, st), Render(DisplayId(d, docId)), Render(d.amount), Render(AccountNumber(d)),
      ShowsTrxId(isWithdraw, st), Render(TransactionId(d)), Render(d.paymentMethod), time);
  }

  /** The line list of a message, on already rendered fields, splits back and shows its `TrxId:` line as asked. */
  lemma LinesReadBack(title: string, id: string, amount: string, number: string,
                      showTrx: bool, trx: string, method': string, time: string)
    requires |title| >= 1 && title[0] != 'T' && NoLineBreak(title)
    requires NoLineBreak(id) && NoLineBreak(amount) && NoLineBreak(number)
    requires showTrx ==> NoLineBreak(trx)
    requires NoLineBreak(method') && NoLineBreak(time)
    ensures
      var ls := [title, "id: " + id, "Amount: " + amount, "Number: " + number]
                + (if showTrx then ["TrxId: " + trx] else [])
                + ["Method: " + method', "Time: " + time];
      Split(Join(ls)) == ls && |ls| == (if showTrx then 7 else 6) && (HasTrxIdLine(ls) <==> showTrx)
  {
    var ls := [title, "id: " + id, "Amount: " + amount, "Number: " + number]
              + (if showTrx then ["TrxId: " + trx] else [])
              + ["Method: " + method', "Time: " + time];
    assert forall k | 0 <= k < |ls| :: NoLineBreak(ls[k]);
    SplitJoin(ls);
    if showTrx {
      assert StartsWith(ls[4], "TrxId: ");
    } else {
      forall k | 0 <= k < |ls| ensures !StartsWith(ls[k], "TrxId: ") {
        if k == 0 { assert ls[0][0] != 'T'; }
        else if k == 5 { assert ls[k][1] == 'i'; }
        else { assert ls[k][0] != 'T'; }
      }
    }
  }

  /** The append steps of `processEvent` on already rendered fields, against the joined line list. */
  lemma AppendsAreLines(title: string, id: string, amount: string, number: string,
                        showTrx: bool, trx: string, method': string, time: string)
    ensures
      var head := title + "\nid: " + id + "\nAmount: " + amount + "\nNumber: " + number;
      var withTrx := if showTrx then head + "\nTrxId: " + trx else head;
      withTrx + "\nMethod: " + method' + "\nTime: " + time
      == Join([title, "id: " + id, "Amount: " + amount, "Number: " + number]
              + (if showTrx then ["TrxId: " + trx] else [])
              + ["Method: " + method', "Time: " + time])
  {
    var l0, l1, l2, l3 := title, "id: " + id, "Amount: " + amount, "Number: " + number;
    assert Join([l0]) == title;
    var m1 := title + ("\n" + "id: ") + id;
    AppendLine(title, [l0], "id: ", id);
    var m2 := m1 + ("\n" + "Amount: ") + amount;
    AppendLine(m1, [l0, l1], "Amount: ", amount);
    var m3 := m2 + ("\n" + "Number: ") + number;
    AppendLine(m2, [l0, l1, l2], "Number: ", number);
    var pre := [l0, l1, l2, l3];
    assert pre == [l0, l1, l2] + [l3];
    var m4, pre4 := m3, pre;
    if showTrx {
      m4 := m3 + ("\n" + "TrxId: ") + trx;
      AppendLine(m3, pre, "TrxId: ", trx);
      pre4 := pre + ["TrxId: " + trx];
    }
    var m5 := m4 + ("\n" + "Method: ") + method';
    AppendLine(m4, pre4, "Method: ", method');
    AppendLine(m5, pre4 + ["Method: " + method'], "Time: ", time);
    assert "\n" + "id: " == "\nid: " && "\n" + "Amount: " == "\nAmount: " && "\n" + "Number: " == "\nNumber: ";
    assert "\n" + "TrxId: " == "\nTrxId: " && "\n" + "Method: " == "\nMethod: " && "\n" + "Time: " == "\nTime: ";
    assert pre4 + ["Method: " + method'] + ["Time: " + time]
      == [l0, l1, l2, l3] + (if showTrx then ["TrxId: " + trx] else []) + ["Method: " + method', "Time: " + time];
  }

  /** Appending `\n<name><value>` to the text of some lines gives the text of those lines and one more. */
  lemma AppendLine(text: string, lines: seq<string>, name: string, value: string)
    requires |lines| >= 1 && Join(lines) == text
    ensures Join(lines + [name + value]) == text + ("\n" + name) + value
  {
    JoinSnoc(lines, name + value);
  }

  lemma {:induction false} JoinSnoc(lines: seq<string>, line: string)
    requires |lines| >= 1
    ensures Join(lines + [line]) == Join(lines) + "\n" + line
    decreases |lines|
  {
    if |lines| > 1 {
      assert (lines + [line])[1..] == lines[1..] + [line];
      JoinSnoc(lines[1..], line);
    }
  }
}
