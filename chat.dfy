/**
 * One turn of the chat screen: `send` trims the input, shows the user's message,
 * posts the conversation to the chat endpoint and shows exactly one reply or
 * error message from the bot.
 *
 * The HTTP exchange is an input: `Outcome` says whether `fetch` (or reading the
 * body) threw, and otherwise gives the status, the raw body text and what
 * `JSON.parse` made of it. A turn is then a deterministic state transition,
 * `SendTurn`, which the `ChatScreen` class carries out step by step.
 */
module Chat {
  import opened Wrappers
  import opened Text

  datatype Sender = Me | Bot

  /** A message as the screen shows it; ids and timestamps are not modelled. */
  datatype Msg = Msg(text: string, from: Sender)

  datatype Role = User | Assistant

  /** A message as the chat endpoint receives it. */
  datatype Turn = Turn(content: string, role: Role)

  /** The form carried between turns; each field is a string or null (None). */
  datatype Form = Form(title: Option<string>, category: Option<string>,
                       description: Option<string>, place: Option<string>)

  const EmptyForm := Form(None, None, None, None)

  const MailAddress := "test@example.com"

  const Greeting := Msg("こんにちは！東京都への意見やご質問をお聞かせください。", Bot)

  /** Reply shown when a parsed body offers no usable text. */
  const NoReply := "(応答なし)"

  /** Stands in for an empty body in the HTTP error message. */
  const NoBody := "(本文なし)"

  /** Shown when the server answers `success: false` without an `error`. */
  const ServerFailed := "サーバー処理に失敗しました。"

  /** Prefix of the message shown when the request throws. */
  const ConnectFailed := "サーバーに接続できませんでした。"

  /** The request body (its constant `schema` part is left out). */
  datatype ChatRequest = ChatRequest(mailAddress: string, messages: seq<Turn>, form: Form,
                                     answer: string, formComplete: bool)

  /**
   * The fields of a parsed object body that `send` reads. `generatedAnswer` is
   * `generated_json.answer`. `success` is None when absent, null or not a boolean;
   * `generatedAnswer` and `generatedText` are None when absent, null or not a
   * string, which `send` treats alike; `error` is None when absent or null, and a
   * string otherwise. `form` is None when absent, null or not an object; the
   * form's own fields are None when absent or null, and strings otherwise.
   */
  datatype ApiResponse = ApiResponse(success: Option<bool>, error: Option<string>,
                                     generatedAnswer: Option<string>, generatedText: Option<string>,
                                     form: Option<Form>)

  /**
   * What `JSON.parse(raw)` gives: it throws (`NotJson`), or a `null`, a string, a
   * number or boolean (`JsonScalar`), or an object (arrays included).
   */
  datatype Body = NotJson | JsonNull | JsonString(value: string) | JsonScalar | JsonObject(response: ApiResponse)

  datatype Outcome =
    | Thrown(message: string)                       // `fetch` or `res.text()` rejected; `e.message` or ""
    | Response(status: nat, raw: string, body: Body)

  /** The screen's state: messages newest first, the input text, and what the next request carries. */
  datatype ChatState = ChatState(messages: seq<Msg>, text: string, form: Form, answer: string, formComplete: bool)

  const InitialState := ChatState([Greeting], "", EmptyForm, "", false)

  // ---------------------------------------------------------------------------
  // The request
  // ---------------------------------------------------------------------------

  function Reverse<T>(s: seq<T>): seq<T> {
    if s == [] then [] else Reverse(s[1..]) + [s[0]]
  }

  lemma {:induction false} ReverseIndex<T>(s: seq<T>)
    ensures |Reverse(s)| == |s|
    ensures forall i :: 0 <= i < |s| ==> Reverse(s)[i] == s[|s| - 1 - i]
  {
    if s != [] {
      ReverseIndex(s[1..]);
    }
  }

  function RoleOf(s: Sender): Role {
    if s == Me then User else Assistant
  }

  function ToTurn(m: Msg): Turn {
    Turn(m.text, RoleOf(m.from))
  }

  /** The conversation sent: the prior messages oldest first, then the new one. */
  function History(prior: seq<Msg>, me: Msg): seq<Turn> {
    var chrono := Reverse(prior) + [me];
    seq(|chrono|, i requires 0 <= i < |chrono| => ToTurn(chrono[i]))
  }

  /** The history lists the prior messages oldest first, each with its role, then the new one. */
  lemma HistoryIndex(prior: seq<Msg>, me: Msg)
    ensures var h := History(prior, me);
      |h| == |prior| + 1
      && (forall i :: 0 <= i < |prior| ==> h[i] == ToTurn(prior[|prior| - 1 - i]))
      && h[|prior|] == ToTurn(me)
  {
    ReverseIndex(prior);
  }

  function BuildRequest(s: ChatState, me: Msg): ChatRequest {
    ChatRequest(MailAddress, History(s.messages, me), s.form, s.answer, s.formComplete)
  }

  // ---------------------------------------------------------------------------
  // The answer
  // ---------------------------------------------------------------------------

  /** `res.ok`. */
  predicate IsOk(status: nat) {
    200 <= status <= 299
  }

  function HttpErrorText(status: nat, raw: string): string {
    "エラー: " + Decimal(status) + "\n" + (if raw == "" then NoBody else raw)
  }

  /** The server reports failure: an object body whose `success` is exactly `false`. */
  predicate Refused(b: Body) {
    b.JsonObject? && b.response.success == Some(false)
  }

  /** `data.error ?? "サーバー処理に失敗しました。"`. */
  function RefusalText(r: ApiResponse): string {
    r.error.GetOr(ServerFailed)
  }

  /** The text of the bot's reply on a successful exchange. */
  function ReplyText(b: Body, raw: string): string {
    match b
    case NotJson => raw
    case JsonString(v) => v
    case JsonObject(r) =>
      if r.generatedAnswer.Some? && r.generatedAnswer.value != "" then r.generatedAnswer.value
      else if r.generatedText.Some? && r.generatedText.value != "" then r.generatedText.value
      else NoReply
    case JsonNull => NoReply
    case JsonScalar => NoReply
  }

  /** The form kept for the next request: the response's form when it carries one, else the old one. */
  function FormAfter(b: Body, form: Form): Form {
    if b.JsonObject? && b.response.form.Some? then b.response.form.value else form
  }

  /** The state after the exchange, given the state in which the user's message is already shown. */
  function Answer(s: ChatState, o: Outcome): ChatState {
    match o
    case Thrown(message) => s.(messages := [Msg(ConnectFailed + message, Bot)] + s.messages)
    case Response(status, raw, body) =>
      if !IsOk(status) then s.(messages := [Msg(HttpErrorText(status, raw), Bot)] + s.messages)
      else if Refused(body) then s.(messages := [Msg(RefusalText(body.response), Bot)] + s.messages)
      else s.(messages := [Msg(ReplyText(body, raw), Bot)] + s.messages,
              form := FormAfter(body, s.form), formComplete := false, answer := "")
  }

  /** Whatever the outcome, the exchange adds exactly one bot message on top and changes no input text. */
  lemma AnswerAddsOne(s: ChatState, o: Outcome)
    ensures var r := Answer(s, o);
      |r.messages| == |s.messages| + 1 && r.messages[1..] == s.messages && r.messages[0].from == Bot
      && r.text == s.text
  {
    var r := Answer(s, o);
    assert r.messages == [r.messages[0]] + s.messages;
  }

  /** One press of the send button: the new state, and the request posted if any. */
  function SendTurn(s: ChatState, o: Outcome): (ChatState, Option<ChatRequest>) {
    var content := Trim(s.text);
    if content == "" then (s, None)
    else
      var me := Msg(content, Me);
      (Answer(s.(messages := [me] + s.messages, text := ""), o), Some(BuildRequest(s, me)))
  }

  // ---------------------------------------------------------------------------
  // Properties of one turn
  // ---------------------------------------------------------------------------

  /** Input that is empty after trimming changes nothing and posts nothing. */
  lemma BlankInputIsNoOp(s: ChatState, o: Outcome)
    requires AllWhitespace(s.text)
    ensures SendTurn(s, o) == (s, None)
  {
    TrimEmptyIff(s.text);
  }

  /**
   * Otherwise the trimmed text is shown as the user's message with exactly one bot
   * message above it, the earlier messages stay below unchanged, the input is
   * cleared and a request is posted.
   */
  lemma TurnAddsTwoMessages(s: ChatState, o: Outcome)
    requires !AllWhitespace(s.text)
    ensures var (r, request) := SendTurn(s, o);
      && |r.messages| == |s.messages| + 2
      && r.messages[2..] == s.messages
      && r.messages[1] == Msg(Trim(s.text), Me)
      && Trim(s.text) != ""
      && r.messages[0].from == Bot
      && r.text == ""
      && request.Some?
  {
    TrimEmptyIff(s.text);
    var me := Msg(Trim(s.text), Me);
    var shown := s.(messages := [me] + s.messages, text := "");
    AnswerAddsOne(shown, o);
    var r := Answer(shown, o);
    assert r.messages[1..] == shown.messages;
    assert r.messages[2..] == shown.messages[1..];
  }

  /**
   * The request holds the prior messages oldest first, each with its role (`user`
   * for the user's own messages, `assistant` for the bot's), then the new message
   * as `user`; it carries the stored form, answer and `form_complete` unchanged.
   */
  lemma RequestContents(s: ChatState, o: Outcome)
    requires !AllWhitespace(s.text)
    ensures var request := SendTurn(s, o).1;
      && request.Some?
      && var q := request.value;
      && q.mailAddress == MailAddress
      && |q.messages| == |s.messages| + 1
      && (forall i :: 0 <= i < |s.messages| ==>
            q.messages[i].content == s.messages[|s.messages| - 1 - i].text
            && (q.messages[i].role == User <==> s.messages[|s.messages| - 1 - i].from == Me))
      && q.messages[|s.messages|] == Turn(Trim(s.text), User)
      && q.form == s.form && q.answer == s.answer && q.formComplete == s.formComplete
  {
    TrimEmptyIff(s.text);
    HistoryIndex(s.messages, Msg(Trim(s.text), Me));
  }

  /**
   * The reply on a successful exchange: a non-empty `generated_json.answer`, else a
   * non-empty `generated_text`, else "(応答なし)" for an object body; the raw text
   * when the body is not JSON; the string itself when the body is a JSON string;
   * "(応答なし)" for any other JSON value. It is empty only when the raw text is
   * empty or the body is the JSON string "".
   */
  lemma ReplyFallback(b: Body, raw: string)
    ensures b.JsonObject? && b.response.generatedAnswer.Some? && b.response.generatedAnswer.value != ""
            ==> ReplyText(b, raw) == b.response.generatedAnswer.value
    ensures b.JsonObject? && b.response.generatedAnswer.GetOr("") == ""
            && b.response.generatedText.Some? && b.response.generatedText.value != ""
            ==> ReplyText(b, raw) == b.response.generatedText.value
    ensures b.JsonObject? && b.response.generatedAnswer.GetOr("") == "" && b.response.generatedText.GetOr("") == ""
            ==> ReplyText(b, raw) == NoReply
    ensures b == NotJson ==> ReplyText(b, raw) == raw
    ensures (b == JsonNull || b == JsonScalar) ==> ReplyText(b, raw) == NoReply
    ensures ReplyText(b, raw) == "" <==> (b == NotJson && raw == "") || b == JsonString("")
  {
  }

  /** Whether an exchange ends on one of the three error paths. */
  predicate Failed(o: Outcome) {
    o.Thrown? || !IsOk(o.status) || Refused(o.body)
  }

  /** The text of the message an error path shows. */
  function FailureText(o: Outcome): string
    requires Failed(o)
  {
    if o.Thrown? then ConnectFailed + o.message
    else if !IsOk(o.status) then HttpErrorText(o.status, o.raw)
    else RefusalText(o.body.response)
  }

  /**
   * On each error path exactly one bot message is added above the user's, with the
   * connection-failure text, the status and body (or "(本文なし)"), or the server's
   * `error` (or the default text); form, answer and `form_complete` are unchanged.
   */
  lemma ErrorPathKeepsForm(s: ChatState, o: Outcome)
    requires !AllWhitespace(s.text) && Failed(o)
    ensures var r := SendTurn(s, o).0;
      && r.messages[0] == Msg(FailureText(o), Bot)
      && r.form == s.form && r.answer == s.answer && r.formComplete == s.formComplete
  {
    TrimEmptyIff(s.text);
  }

  /**
   * On a successful exchange the reply is shown, the form is replaced by the
   * response's form only when it carries one, `form_complete` becomes false and
   * `answer` becomes empty.
   */
  lemma SuccessPathUpdatesForm(s: ChatState, o: Outcome)
    requires !AllWhitespace(s.text) && !Failed(o)
    ensures var r := SendTurn(s, o).0;
      && r.messages[0] == Msg(ReplyText(o.body, o.raw), Bot)
      && (o.body.JsonObject? && o.body.response.form.Some? ==> r.form == o.body.response.form.value)
      && (!(o.body.JsonObject? && o.body.response.form.Some?) ==> r.form == s.form)
      && !r.formComplete && r.answer == ""
  {
    TrimEmptyIff(s.text);
  }

  // ---------------------------------------------------------------------------
  // A conversation: the user types a text and presses send, turn after turn
  // ---------------------------------------------------------------------------

  datatype Entry = Entry(typed: string, outcome: Outcome)

  function Converse(s: ChatState, es: seq<Entry>): ChatState
    decreases |es|
  {
    if es == [] then s else Converse(SendTurn(s.(text := es[0].typed), es[0].outcome).0, es[1..])
  }

  /** Whether an entry leads to a stored form: a sent, successful exchange whose body carries a form. */
  predicate StoresForm(e: Entry) {
    !AllWhitespace(e.typed) && !Failed(e.outcome) && e.outcome.body.JsonObject? && e.outcome.body.response.form.Some?
  }

  /** The form of the last entry that stores one, or `initial`. */
  function LastStoredForm(es: seq<Entry>, initial: Form): Form {
    if es == [] then initial
    else if StoresForm(es[|es| - 1]) then es[|es| - 1].outcome.body.response.form.value
    else LastStoredForm(es[..|es| - 1], initial)
  }

  /** Number of entries whose text is not blank. */
  function Sent(es: seq<Entry>): nat {
    if es == [] then 0 else (if AllWhitespace(es[0].typed) then 0 else 1) + Sent(es[1..])
  }

  lemma {:induction false} ConverseAppend(s: ChatState, es: seq<Entry>, e: Entry)
    ensures Converse(s, es + [e]) == SendTurn(Converse(s, es).(text := e.typed), e.outcome).0
    decreases |es|
  {
    if es == [] {
      assert es + [e] == [e];
    } else {
      assert (es + [e])[0] == es[0] && (es + [e])[1..] == es[1..] + [e];
      ConverseAppend(SendTurn(s.(text := es[0].typed), es[0].outcome).0, es[1..], e);
    }
  }

  /** The turn's effect on the form alone. */
  lemma TurnForm(s: ChatState, e: Entry)
    ensures SendTurn(s.(text := e.typed), e.outcome).0.form
            == if StoresForm(e) then e.outcome.body.response.form.value else s.form
  {
    if AllWhitespace(e.typed) {
      BlankInputIsNoOp(s.(text := e.typed), e.outcome);
    } else if Failed(e.outcome) {
      ErrorPathKeepsForm(s.(text := e.typed), e.outcome);
    } else {
      SuccessPathUpdatesForm(s.(text := e.typed), e.outcome);
    }
  }

  /**
   * The form a request carries is the one stored from the latest successful reply
   * with a form; before any such reply it is the starting form, all four fields
   * null on a fresh screen.
   */
  lemma {:induction false} FormCarriedOver(s: ChatState, es: seq<Entry>)
    ensures Converse(s, es).form == LastStoredForm(es, s.form)
    decreases |es|
  {
    if es != [] {
      var init := es[..|es| - 1];
      var e := es[|es| - 1];
      assert es == init + [e];
      ConverseAppend(s, init, e);
      FormCarriedOver(s, init);
      TurnForm(Converse(s, init), e);
    }
  }

  /** A turn from a state with an empty `answer` and `form_complete` false keeps both so, and sends them so. */
  lemma TurnKeepsAnswerEmpty(s: ChatState, o: Outcome)
    requires s.answer == "" && !s.formComplete
    ensures var (r, request) := SendTurn(s, o);
      r.answer == "" && !r.formComplete
      && (request.Some? ==> request.value.answer == "" && !request.value.formComplete)
  {
    if AllWhitespace(s.text) {
      BlankInputIsNoOp(s, o);
    } else if Failed(o) {
      ErrorPathKeepsForm(s, o);
    } else {
      SuccessPathUpdatesForm(s, o);
    }
  }

  /**
   * On a fresh screen, and after any turns, every request sends an empty `answer`
   * and `form_complete` false: neither is ever set to anything else.
   */
  lemma {:induction false} AnswerAlwaysEmpty(es: seq<Entry>, o: Outcome)
    ensures var s := Converse(InitialState, es);
      s.answer == "" && !s.formComplete
      && (SendTurn(s, o).1.Some? ==> SendTurn(s, o).1.value.answer == "" && !SendTurn(s, o).1.value.formComplete)
    decreases |es|
  {
    var s := Converse(InitialState, es);
    if es != [] {
      var init := es[..|es| - 1];
      var e := es[|es| - 1];
      assert es == init + [e];
      ConverseAppend(InitialState, init, e);
      AnswerAlwaysEmpty(init, e.outcome);
      TurnKeepsAnswerEmpty(Converse(InitialState, init).(text := e.typed), e.outcome);
    }
    TurnKeepsAnswerEmpty(s, o);
  }

  /** Each sent turn adds exactly two messages; blank ones add none. */
  lemma {:induction false} MessagesPerTurn(s: ChatState, es: seq<Entry>)
    ensures |Converse(s, es).messages| == |s.messages| + 2 * Sent(es)
    decreases |es|
  {
    if es != [] {
      var s1 := s.(text := es[0].typed);
      if AllWhitespace(es[0].typed) {
        BlankInputIsNoOp(s1, es[0].outcome);
      } else {
        TurnAddsTwoMessages(s1, es[0].outcome);
      }
      MessagesPerTurn(SendTurn(s1, es[0].outcome).0, es[1..]);
    }
  }

  // ---------------------------------------------------------------------------
  // The screen
  // ---------------------------------------------------------------------------

  class ChatScreen {
    var messages: seq<Msg>
    var text: string
    var form: Form
    var answer: string
    var formComplete: bool

    function State(): ChatState
      reads this
    {
      ChatState(messages, text, form, answer, formComplete)
    }

    /** The greeting alone, an empty input, an all-null form, empty answer, form not complete. */
    constructor ()
      ensures State() == InitialState
    {
      messages := [Greeting];
      text := "";
      form := EmptyForm;
      answer := "";
      formComplete := false;
    }

    /** `onChangeText={setText}`. */
    method ChangeText(t: string)
      modifies this
      ensures State() == old(State()).(text := t)
    {
      text := t;
    }

    /** `send`: returns the request it posted, if any. */
    method Send(o: Outcome) returns (request: Option<ChatRequest>)
      modifies this
      ensures (State(), request) == SendTurn(old(State()), o)
    {
      var content := Trim(text);
      if content == "" {
        return None;
      }
      var me := Msg(content, Me);
      request := Some(BuildRequest(State(), me));
      messages := [me] + messages;
      text := "";
      Receive(o);
    }

    /** The exchange inside `send`'s `try`: adds the bot's message and, on success, updates what the next request carries. */
    method Receive(o: Outcome)
      modifies this
      ensures State() == Answer(old(State()), o)
    {
      match o {
        case Thrown(message) =>
          messages := [Msg(ConnectFailed + message, Bot)] + messages;
        case Response(status, raw, body) =>
          if !IsOk(status) {
            messages := [Msg(HttpErrorText(status, raw), Bot)] + messages;
            return;
          }
          if Refused(body) {
            messages := [Msg(RefusalText(body.response), Bot)] + messages;
            return;
          }
          var reply := ReplyText(body, raw);
          if body.JsonObject? && body.response.form.Some? {
            form := body.response.form.value;
          }
          formComplete := false;
          answer := "";
          messages := [Msg(reply, Bot)] + messages;
      }
    }
  }
}
