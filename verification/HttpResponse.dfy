/** The response object of libcore/http_response.go: a body that may be read and must be
    released once, with teardown hooks around it. */
module HttpResponse {
  import opened Bytes

  datatype Error =
    | NoError | TooLarge | ReadAfterClose | ShortWrite | Failed(code: int) | Joined(first: Error, second: Error)

  const MAX_CONTENT_SIZE := 32 * 1024 * 1024
  const ERROR_SNIPPET_SIZE := 1024
  const QUOTE_SIZE := 100
  const ELLIPSIS: seq<byte> := [0x20, 0x2e, 0x2e, 0x2e]

  /** A body as the transport delivers it, which gives its data and then ends, with an error or
      not; or a body with a hook to run once it is closed. */
  datatype Body =
    | Raw(data: seq<byte>, end: Error, closeError: Error, closes: nat)
    | Hooked(inner: Body, after: int, afterError: Error, ran: bool)

  datatype Event = RawClosed | Ran(after: int)

  function RawOf(b: Body): (raw: Body)
    ensures raw.Raw?
  {
    if b.Raw? then b else RawOf(b.inner)
  }

  /** The body after Close. */
  function Closed(b: Body): Body {
    match b
    case Raw(_, _, _, closes) => b.(closes := closes + 1)
    case Hooked(inner, _, _, _) => b.(inner := Closed(inner), ran := true)
  }

  /** What Close does, in order: the transport's body first, then the hooks from the inside out,
      but only those that have not run. */
  function CloseEvents(b: Body): seq<Event> {
    match b
    case Raw(_, _, _, _) => [RawClosed]
    case Hooked(inner, after, _, ran) => CloseEvents(inner) + if ran then [] else [Ran(after)]
  }

  /** What Close reports: the innermost error, if any. */
  function CloseResult(b: Body): Error {
    match b
    case Raw(_, _, closeError, _) => closeError
    case Hooked(inner, _, afterError, ran) =>
      if CloseResult(inner) != NoError then CloseResult(inner) else if ran then NoError else afterError
  }

  datatype Limit = Unlimited | UpTo(bytes: nat)

  /** Reads everything, or the first bytes when there are as many as the limit allows. */
  function Read(raw: Body, limit: Limit): (seq<byte>, Error)
    requires raw.Raw?
  {
    if raw.closes > 0 then ([], ReadAfterClose)
    else if limit.UpTo? && |raw.data| >= limit.bytes then (raw.data[..limit.bytes], NoError)
    else (raw.data, raw.end)
  }

  /** readAllLimited: one byte more than allowed is read, to tell a full body from too large
      a one. */
  function ReadLimited(raw: Body): (seq<byte>, Error)
    requires raw.Raw?
  {
    var (b, err) := Read(raw, UpTo(MAX_CONTENT_SIZE + 1));
    if err == NoError && |b| > MAX_CONTENT_SIZE then ([], TooLarge) else (b, err)
  }

  // ---------------------------------------------------------------- objects

  /** A body object: bodyCloseHook around another one, or the transport's own. */
  class ReadCloser {
    const inner: ReadCloser?
    const after: int
    const data: seq<byte>
    const end: Error
    /** Of the hook, or of the transport's Close. */
    const error: Error
    var ran: bool
    var closes: nat
    ghost var Repr: set<object>

    constructor Raw(data: seq<byte>, end: Error, closeError: Error)
      ensures Valid() && fresh(Repr) && Value() == Body.Raw(data, end, closeError, 0)
    {
      this.inner, this.after, this.data, this.end, this.error := null, 0, data, end, closeError;
      ran, closes := false, 0;
      Repr := {this};
    }

    constructor Hook(inner: ReadCloser, after: int, afterError: Error)
      requires inner.Valid()
      ensures Valid() && fresh(Repr - inner.Repr) && Value() == Hooked(old(inner.Value()), after, afterError, false)
    {
      this.inner, this.after, this.data, this.end, this.error := inner, after, [], NoError, afterError;
      ran, closes := false, 0;
      Repr := {this} + inner.Repr;
    }

    ghost predicate Valid()
      reads this, Repr
      ensures Valid() ==> this in Repr
      decreases Repr
    {
      && this in Repr
      && (inner != null ==> inner in Repr && inner.Repr < Repr && this !in inner.Repr && inner.Valid())
    }

    ghost function Value(): Body
      requires Valid()
      reads this, Repr
      decreases Repr
    {
      if inner == null then Body.Raw(data, end, error, closes) else Hooked(inner.Value(), after, error, ran)
    }

    method Close() returns (err: Error, events: seq<Event>)
      requires Valid()
      modifies Repr
      ensures Valid() && Repr == old(Repr)
      ensures Value() == Closed(old(Value())) && events == CloseEvents(old(Value()))
      ensures err == CloseResult(old(Value()))
      decreases Repr
    {
      if inner == null {
        closes := closes + 1;
        return error, [RawClosed];
      }
      var afterErr := NoError;
      err, events := inner.Close();
      if !ran {
        ran := true;
        afterErr := error;
        events := events + [Ran(after)];
      }
      if err == NoError {
        err := afterErr;
      }
    }

    method ReadAll(limit: Limit) returns (content: seq<byte>, err: Error)
      requires Valid()
      ensures (content, err) == Read(RawOf(Value()), limit)
      decreases Repr
    {
      if inner != null {
        content, err := inner.ReadAll(limit);
      } else if closes > 0 {
        content, err := [], ReadAfterClose;
      } else if limit.UpTo? && |data| >= limit.bytes {
        content, err := data[..limit.bytes], NoError;
      } else {
        content, err := data, end;
      }
    }
  }

  /** A response object as a value. */
  datatype State = State(body: Body, closed: bool, fetched: bool, content: seq<byte>, contentError: Error)

  function Opened(body: Body): State {
    State(body, false, false, [], NoError)
  }

  /** How a file behaves: whether it can be created, how many bytes it takes and what it says to
      more, and how its Close ends. */
  datatype Sink = Sink(create: Error, room: Limit, full: Error, close: Error)

  datatype Call = GetContent | Close | WriteTo(sink: Sink) | ErrorString

  /** The bytes a call gives or writes, and its error. */
  datatype Reply = Reply(bytes: seq<byte>, error: Error)

  function Release(s: State): State {
    if s.closed then s else s.(body := Closed(s.body), closed := true)
  }

  function ReleaseEvents(s: State): seq<Event> {
    if s.closed then [] else CloseEvents(s.body)
  }

  /** errors.Join. */
  function Join(first: Error, second: Error): Error {
    if first == NoError then second else if second == NoError then first else Joined(first, second)
  }

  /** copyAndClose: what is written, and the errors of the copy and of the file's Close. */
  function Copied(b: seq<byte>, read: Error, sink: Sink): Reply {
    if sink.room.UpTo? && |b| > sink.room.bytes
    then Reply(b[..sink.room.bytes], Join(if sink.full == NoError then ShortWrite else sink.full, sink.close))
    else Reply(b, Join(read, sink.close))
  }

  /** What errorString quotes of the bytes it has read. */
  function Quote(b: seq<byte>): seq<byte> {
    if |b| > QUOTE_SIZE then b[..QUOTE_SIZE] + ELLIPSIS else b
  }

  /** The state a call leaves. */
  function After(s: State, call: Call): State {
    if call != GetContent then Release(s)
    else if s.fetched then s
    else
      var (content, err) := ReadLimited(RawOf(s.body));
      Release(s).(fetched := true, content := content, contentError := err)
  }

  function EventsOf(s: State, call: Call): seq<Event> {
    if call == GetContent && s.fetched then [] else ReleaseEvents(s)
  }

  function ReplyTo(s: State, call: Call): Reply {
    match call
    case GetContent => Reply(After(s, call).content, After(s, call).contentError)
    case Close => Reply([], NoError)
    case WriteTo(sink) =>
      if sink.create != NoError then Reply([], sink.create)
      else
        var (b, err) := Read(RawOf(s.body), Unlimited);
        Copied(b, err, sink)
    case ErrorString =>
      var (b, err) := Read(RawOf(s.body), UpTo(ERROR_SNIPPET_SIZE));
      Reply(if err == NoError then Quote(b) else [], NoError)
  }

  class Response {
    const body: ReadCloser
    var closed: bool
    var fetched: bool
    var content: seq<byte>
    var contentError: Error

    constructor (body: ReadCloser)
      requires body.Valid()
      ensures Valid() && this.body == body && Value() == Opened(body.Value())
    {
      this.body, closed, fetched, content, contentError := body, false, false, [], NoError;
    }

    ghost predicate Valid()
      reads this, body, body.Repr
    {
      body.Valid() && this !in body.Repr
    }

    ghost function Value(): State
      requires Valid()
      reads this, body, body.Repr
    {
      State(body.Value(), closed, fetched, content, contentError)
    }

    method CloseBody() returns (events: seq<Event>)
      requires Valid()
      modifies this`closed, body.Repr
      ensures Valid() && body.Repr == old(body.Repr)
      ensures Value() == Release(old(Value())) && events == ReleaseEvents(old(Value()))
    {
      events := [];
      if !closed {
        closed := true;
        var _, closing := body.Close();
        events := closing;
      }
    }

    method Fetch() returns (events: seq<Event>)
      requires Valid()
      modifies this, body.Repr
      ensures Valid() && body.Repr == old(body.Repr)
      ensures Value() == After(old(Value()), GetContent) && events == EventsOf(old(Value()), GetContent)
    {
      events := [];
      if !fetched {
        fetched := true;
        var b, err := body.ReadAll(UpTo(MAX_CONTENT_SIZE + 1));
        if err == NoError && |b| > MAX_CONTENT_SIZE {
          b, err := [], TooLarge;
        }
        content, contentError := b, err;
        events := CloseBody();
      }
    }

    /** WriteTo before it releases the body. */
    method WriteBody(sink: Sink) returns (reply: Reply)
      requires Valid()
      ensures reply == ReplyTo(Value(), WriteTo(sink))
    {
      if sink.create != NoError {
        return Reply([], sink.create);
      }
      var b, err := body.ReadAll(Unlimited);
      if sink.room.UpTo? && |b| > sink.room.bytes {
        b, err := b[..sink.room.bytes], if sink.full == NoError then ShortWrite else sink.full;
      }
      return Reply(b, Join(err, sink.close));
    }

    /** Any of the calls an application can make on a response. */
    method Answer(call: Call) returns (reply: Reply, events: seq<Event>)
      requires Valid()
      modifies this, body.Repr
      ensures Valid() && body.Repr == old(body.Repr)
      ensures Value() == After(old(Value()), call)
      ensures reply == ReplyTo(old(Value()), call) && events == EventsOf(old(Value()), call)
    {
      if call == GetContent {
        events := Fetch();
        return Reply(content, contentError), events;
      }
      reply := Reply([], NoError);
      if call.WriteTo? {
        reply := WriteBody(call.sink);
      } else if call == ErrorString {
        var b, err := body.ReadAll(UpTo(ERROR_SNIPPET_SIZE));
        if err == NoError {
          if |b| > QUOTE_SIZE {
            b := b[..QUOTE_SIZE] + ELLIPSIS;
          }
          reply := Reply(b, NoError);
        }
      }
      events := CloseBody();
    }
  }

  // ---------------------------------------------------------------- any calls in any order

  predicate Fresh(b: Body) {
    match b
    case Raw(_, _, _, closes) => closes == 0
    case Hooked(inner, _, _, ran) => !ran && Fresh(inner)
  }

  /** The hooks of a body, from the inside out. */
  function HooksOf(b: Body): seq<Event> {
    if b.Raw? then [] else HooksOf(b.inner) + [Ran(b.after)]
  }

  function AfterAll(s: State, calls: seq<Call>): State {
    if calls == [] then s else After(AfterAll(s, calls[..|calls| - 1]), calls[|calls| - 1])
  }

  function EventsOfAll(s: State, calls: seq<Call>): seq<Event> {
    if calls == [] then []
    else
      var before := calls[..|calls| - 1];
      EventsOfAll(s, before) + EventsOf(AfterAll(s, before), calls[|calls| - 1])
  }

  /** Closing a fresh body closes the transport's body once and runs every hook once; closing
      it again runs no hook. */
  lemma {:induction false} HooksRunOnce(b: Body)
    requires Fresh(b)
    ensures CloseEvents(b) == [RawClosed] + HooksOf(b)
    ensures CloseEvents(Closed(b)) == [RawClosed]
    ensures RawOf(Closed(b)).closes == 1
    ensures CloseResult(Closed(b)) == RawOf(b).closeError
  {
    if b.Hooked? { HooksRunOnce(b.inner); }
  }

  /** The first error from the inside out is what the first Close reports. */
  lemma {:induction false} InnerErrorWins(b: Body)
    requires Fresh(b) && b.Hooked?
    ensures CloseResult(b) == NoError <==> CloseResult(b.inner) == NoError && b.afterError == NoError
    ensures RawOf(b).closeError != NoError ==> CloseResult(b) == RawOf(b).closeError
  {
    if b.inner.Hooked? { InnerErrorWins(b.inner); }
  }

  /** Whatever calls are made, in whatever order: as soon as there is one, the transport's body
      has been closed once and every hook has run once. */
  lemma {:induction false} ReleasedOnce(b: Body, calls: seq<Call>)
    requires Fresh(b)
    ensures EventsOfAll(Opened(b), calls) == if calls == [] then [] else [RawClosed] + HooksOf(b)
    ensures AfterAll(Opened(b), calls).body == if calls == [] then b else Closed(b)
    ensures AfterAll(Opened(b), calls).closed == (calls != [])
    ensures AfterAll(Opened(b), calls).fetched ==> calls != []
  {
    HooksRunOnce(b);
    if calls != [] { ReleasedOnce(b, calls[..|calls| - 1]); }
  }

  /** What GetContent gives on a response nothing has touched. */
  function Content(b: Body): Reply {
    var raw := RawOf(b);
    if |raw.data| > MAX_CONTENT_SIZE then Reply([], TooLarge) else Reply(raw.data, raw.end)
  }

  /** The content is fetched once: every GetContent gives the same answer, which is the body's
      own when nothing was called before it, and an error for ever when something was. */
  lemma {:induction false} ContentIsStable(b: Body, calls: seq<Call>)
    requires Fresh(b)
    ensures ReplyTo(AfterAll(Opened(b), calls), GetContent) ==
            if calls == [] || calls[0] == GetContent then Content(b) else Reply([], ReadAfterClose)
  {
    HooksRunOnce(b);
    FreshRaw(b);
    if calls != [] {
      var before := calls[..|calls| - 1];
      ReleasedOnce(b, before);
      ContentIsStable(b, before);
    }
  }

  /** A file written without an error holds the whole body, which ended without one. */
  lemma WrittenWhole(b: Body, sink: Sink)
    requires Fresh(b)
    ensures var reply := ReplyTo(Opened(b), WriteTo(sink));
            reply.error == NoError <==>
            && sink.create == NoError && sink.close == NoError && RawOf(b).end == NoError
            && (sink.room.UpTo? ==> |RawOf(b).data| <= sink.room.bytes)
    ensures var reply := ReplyTo(Opened(b), WriteTo(sink)); reply.error == NoError ==> reply.bytes == RawOf(b).data
  {
    FreshRaw(b);
  }

  /** An error page of up to 100 bytes that ends by itself is quoted whole, a longer one by its first
      100 bytes and " ...", and one whose reading fails within 1024 bytes not at all. */
  lemma ErrorPageIsQuoted(b: Body)
    requires Fresh(b)
    ensures var data, quoted := RawOf(b).data, ReplyTo(Opened(b), ErrorString);
            && quoted.error == NoError
            && (|data| < 1024 && RawOf(b).end != NoError ==> quoted.bytes == [])
            && (|data| >= 1024 || RawOf(b).end == NoError ==>
                  quoted.bytes == if |data| <= 100 then data else data[..100] + [0x20, 0x2e, 0x2e, 0x2e])
  {
    FreshRaw(b);
  }

  /** Content of up to 32 MiB is given whole, with the error it ends with, and more of it never. */
  lemma ContentIsLimited(b: Body)
    requires Fresh(b)
    ensures var reply := ReplyTo(Opened(b), GetContent);
            if |RawOf(b).data| <= 33554432 then reply == Reply(RawOf(b).data, RawOf(b).end)
            else reply == Reply([], TooLarge)
  {
    FreshRaw(b);
  }

  /** The error of a file: that of its creation, or those of the copy and of its Close, each if there
      is one. */
  lemma WriteErrors(b: Body, sink: Sink)
    requires Fresh(b)
    ensures var whole := sink.room.UpTo? ==> |RawOf(b).data| <= sink.room.bytes;
            var copy := if whole then RawOf(b).end else if sink.full == NoError then ShortWrite else sink.full;
            ReplyTo(Opened(b), WriteTo(sink)).error ==
            if sink.create != NoError then sink.create
            else if copy != NoError && sink.close != NoError then Joined(copy, sink.close)
            else if copy != NoError then copy else sink.close
  {
    FreshRaw(b);
  }

  /** Whatever happens to a file, what is in it is a beginning of the body. */
  lemma WrittenIsPrefix(b: Body, sink: Sink)
    requires Fresh(b)
    ensures ReplyTo(Opened(b), WriteTo(sink)).bytes <= RawOf(b).data
    ensures sink.create == NoError ==>
              ReplyTo(Opened(b), WriteTo(sink)).bytes ==
              if sink.room.UpTo? && |RawOf(b).data| > sink.room.bytes then RawOf(b).data[..sink.room.bytes]
              else RawOf(b).data
  {
    FreshRaw(b);
  }

  lemma {:induction false} FreshRaw(b: Body)
    requires Fresh(b)
    ensures RawOf(b).closes == 0
  {
    if b.Hooked? { FreshRaw(b.inner); }
  }
}
