/** `processEvent` without its I/O: from a request document to the message it sends, or the reason it sends none. */
module Events {
  import opened JsValues
  import opened Wrappers
  import opened Requests
  import opened Lines
  import opened Composer
  import opened Registry

  /** Why `processEvent` returned without sending. */
  datatype Skip = InvalidStatus | QueryRefused | NoManager | NoChatId

  /** The Telegram `sendMessage` call `processEvent` would make, or why it makes none. */
  datatype Outcome = Skipped(reason: Skip) | Send(chatId: Value, text: string)

  /**
   * `processEvent(data, docId, isWithdraw)` against a registry snapshot;
   * `nowMillis` and `localeString` stand for the clock and the date rendering
   * of `formatTime`.
   */
  function ProcessEvent(d: DocData, docId: string, isWithdraw: bool, registry: seq<Manager>,
                        nowMillis: int, localeString: int -> string): (r: Outcome)
    ensures r == Skipped(InvalidStatus) <==> ParseStatus(d.status) == None
    ensures r == Skipped(QueryRefused) <==> ParseStatus(d.status).Some? && d.paymentMethod == Undefined
    ensures r == Skipped(NoManager) <==>
      ParseStatus(d.status).Some? && d.paymentMethod != Undefined
      && forall j :: 0 <= j < |registry| ==> registry[j].payment != d.paymentMethod
    ensures r == Skipped(NoChatId) <==>
      ParseStatus(d.status).Some? && d.paymentMethod != Undefined
      && exists i :: IsFirstMatch(registry, d.paymentMethod, i) && !Truthy(registry[i].chatId)
    ensures r.Send? <==>
      ParseStatus(d.status).Some? && d.paymentMethod != Undefined
      && exists i :: IsFirstMatch(registry, d.paymentMethod, i) && Truthy(registry[i].chatId)
    ensures r.Send? ==>
      (exists i :: IsFirstMatch(registry, d.paymentMethod, i) && r.chatId == registry[i].chatId)
      && r.text == Join(MessageLines(d, docId, isWithdraw, ParseStatus(d.status).value,
                                     FormatTime(d.createdAt, nowMillis, localeString)))
  {
    match ParseStatus(d.status)
    case None => Skipped(InvalidStatus)
    case Some(st) =>
      match Resolve(registry, d.paymentMethod)
      case Refused => Skipped(QueryRefused)
      case NoMatch => Skipped(NoManager)
      case Found(manager) =>
        if !Truthy(manager.chatId) then Skipped(NoChatId)
        else
          var time := FormatTime(d.createdAt, nowMillis, localeString);
          MessageIsJoinedLines(d, docId, isWithdraw, st, time);
          Send(manager.chatId, Message(d, docId, isWithdraw, st, time))
  }
}
