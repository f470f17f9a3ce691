/**
 The request body limit. The middleware buffers the messages of a request until
 its body ends, rejects it at the first chunk that crosses the limit, and
 otherwise replays the buffered messages to the application.

 Messages are those of the ASGI HTTP specification, section "Request - receive
 event".
 */
module BodyLimit {
  import opened ByteSizes
  import opened Items

  datatype Message =
    | Request(body: Option<seq<byte>>, moreBody: Option<bool>)
    | Disconnect
    | OtherMessage(kind: string)

  /** A header value as the integer parser sees it. */
  datatype HeaderValue = Number(n: int) | NotANumber

  datatype Header = Header(name: string, value: HeaderValue)

  datatype Scope = Scope(kind: string, headers: seq<Header>)

  const CONTENT_LENGTH := "content-length"

  /** Of repeated headers the last one counts. */
  function ContentLength(headers: seq<Header>): Option<HeaderValue> {
    if headers == [] then None
    else if headers[|headers| - 1].name == CONTENT_LENGTH then Some(headers[|headers| - 1].value)
    else ContentLength(headers[..|headers| - 1])
  }

  /** The last header of this name declares a body longer than the limit. */
  ghost predicate DeclaredTooLong(scope: Scope, limit: nat) {
    exists i: nat :: i < |scope.headers| && LastNamed(scope.headers, "content-length", i)
      && scope.headers[i].value.Number? && scope.headers[i].value.n > limit
  }

  ghost predicate LastNamed(headers: seq<Header>, name: string, i: nat) {
    && i < |headers| && headers[i].name == name
    && forall j :: i < j < |headers| ==> headers[j].name != name
  }

  lemma {:induction false} ContentLengthIsLast(headers: seq<Header>)
    ensures var found := ContentLength(headers);
            if found.Some? then
              exists i: nat :: LastNamed(headers, "content-length", i) && headers[i].value == found.value
            else forall i :: 0 <= i < |headers| ==> headers[i].name != "content-length"
  {
    if headers != [] {
      var earlier := headers[..|headers| - 1];
      if headers[|headers| - 1].name == CONTENT_LENGTH {
        assert LastNamed(headers, "content-length", |headers| - 1);
      } else {
        ContentLengthIsLast(earlier);
        if ContentLength(earlier).Some? {
          var i: nat :| LastNamed(earlier, "content-length", i) && earlier[i].value == ContentLength(earlier).value;
          assert LastNamed(headers, "content-length", i);
        }
      }
    }
  }

  lemma DeclaredIff(scope: Scope, limit: nat)
    ensures var found := ContentLength(scope.headers);
            DeclaredTooLong(scope, limit) <==> found.Some? && found.value.Number? && found.value.n > limit
  {
    ContentLengthIsLast(scope.headers);
  }

  // ---------- the bytes of a body ----------

  /** The body bytes that the first `n` messages carry, one after the other. */
  function BodyBytes(messages: seq<Message>, n: nat): seq<byte>
    requires n <= |messages|
  {
    if n == 0 then []
    else
      match messages[n - 1]
      case Request(Some(chunk), _) => BodyBytes(messages, n - 1) + chunk
      case _ => BodyBytes(messages, n - 1)
  }

  /** Every one of the first `n` messages leaves the body open: it announces more, or is no message of the body. */
  ghost predicate BodyOpen(messages: seq<Message>, n: nat)
    requires n <= |messages|
  {
    forall j :: 0 <= j < n ==>
      match messages[j]
      case Request(_, more) => more == Some(true)
      case Disconnect => false
      case OtherMessage(_) => true
  }

  /** The body has stayed within the limit in each of its first `n` prefixes. */
  ghost predicate Within(limit: nat, messages: seq<Message>, n: nat)
    requires n <= |messages|
  {
    forall j :: 0 <= j <= n ==> |BodyBytes(messages, j)| <= limit
  }

  ghost predicate RejectsAt(limit: nat, messages: seq<Message>, i: nat) {
    && i < |messages| && BodyOpen(messages, i) && Within(limit, messages, i)
    && |BodyBytes(messages, i + 1)| > limit
  }

  ghost predicate ForwardsAt(limit: nat, messages: seq<Message>, i: nat) {
    && i < |messages| && BodyOpen(messages, i) && !BodyOpen(messages, i + 1)
    && Within(limit, messages, i + 1)
  }

  // ---------- exactness ----------

  lemma {:induction false} BodyGrows(messages: seq<Message>, m: nat, n: nat)
    requires m <= n <= |messages|
    ensures BodyBytes(messages, m) <= BodyBytes(messages, n)
  {
    if m < n {
      BodyGrows(messages, m, n - 1);
    }
  }

  /** A message that arrives last adds its chunk, whether or not it announces more; nothing else adds bytes. */
  lemma ChunkAppended(messages: seq<Message>, message: Message)
    ensures var before, after := BodyBytes(messages, |messages|), BodyBytes(messages + [message], |messages| + 1);
            && (message.Request? && message.body.Some? ==> after == before + message.body.value)
            && (!message.Request? || message.body == None ==> after == before)
  {
    PrefixBytes(messages, [message], |messages|);
  }

  /** The body stays open after a further message exactly when that announces more or is no message of the body. */
  lemma OpenAfter(messages: seq<Message>, message: Message)
    ensures BodyOpen(messages + [message], |messages| + 1) <==>
              && BodyOpen(messages, |messages|)
              && !message.Disconnect? && (message.Request? ==> message.moreBody.Some? && message.moreBody.value)
  {
    var longer := messages + [message];
    assert longer[|messages|] == message;
    assert forall j :: 0 <= j < |messages| ==> longer[j] == messages[j];
  }

  lemma {:induction false} PrefixBytes(messages: seq<Message>, more: seq<Message>, n: nat)
    requires n <= |messages|
    ensures BodyBytes(messages + more, n) == BodyBytes(messages, n)
  {
    if n > 0 {
      PrefixBytes(messages, more, n - 1);
      assert (messages + more)[n - 1] == messages[n - 1];
    }
  }

  lemma {:induction false} FirstCrossing(limit: nat, messages: seq<Message>, n: nat) returns (i: nat)
    requires n <= |messages| && |BodyBytes(messages, n)| > limit
    ensures i < n && |BodyBytes(messages, i + 1)| > limit && Within(limit, messages, i)
  {
    if |BodyBytes(messages, n - 1)| > limit {
      i := FirstCrossing(limit, messages, n - 1);
    } else {
      i := n - 1;
      forall j | 0 <= j <= i ensures |BodyBytes(messages, j)| <= limit {
        BodyGrows(messages, j, n - 1);
      }
    }
  }

  /** The body consists of the first `n` messages: the last of them ends it, or none follows. */
  ghost predicate WholeBody(messages: seq<Message>, n: nat) {
    n <= |messages| && (if n == 0 then messages == [] else BodyOpen(messages, n - 1))
    && (n < |messages| ==> !BodyOpen(messages, n))
  }

  /** A request is rejected at some chunk exactly when its whole body is longer than the limit. */
  lemma RejectedIffBodyTooLong(limit: nat, messages: seq<Message>, n: nat)
    requires WholeBody(messages, n)
    ensures (exists i: nat :: RejectsAt(limit, messages, i)) <==> |BodyBytes(messages, n)| > limit
  {
    if i: nat :| RejectsAt(limit, messages, i) {
      assert i < n;
      BodyGrows(messages, i + 1, n);
    }
    if |BodyBytes(messages, n)| > limit {
      var i := FirstCrossing(limit, messages, n);
      assert RejectsAt(limit, messages, i);
    }
  }

  /** Every message sequence has exactly one whole body. */
  lemma {:induction false} WholeBodyExists(messages: seq<Message>, from: nat) returns (n: nat)
    requires from <= |messages| && BodyOpen(messages, from)
    ensures WholeBody(messages, n) && forall other :: WholeBody(messages, other) ==> other == n
    decreases |messages| - from
  {
    if from == |messages| {
      n := from;
    } else if BodyOpen(messages, from + 1) {
      n := WholeBodyExists(messages, from + 1);
    } else {
      n := from + 1;
    }
  }

  /** Rejection and forwarding exclude each other, and each can happen at one message only. */
  lemma OneVerdict(limit: nat, messages: seq<Message>, i: nat, j: nat)
    requires RejectsAt(limit, messages, i) || ForwardsAt(limit, messages, i)
    requires RejectsAt(limit, messages, j) || ForwardsAt(limit, messages, j)
    ensures i == j && (RejectsAt(limit, messages, i) <==> RejectsAt(limit, messages, j))
  {
  }

  // ---------- the middleware ----------

  /** The server's receive channel: a cursor over the messages that will arrive. */
  class Receiver {
    const incoming: seq<Message>
    var position: nat

    ghost predicate Valid()
      reads this
    {
      position <= |incoming|
    }

    constructor (incoming: seq<Message>)
      ensures Valid() && this.incoming == incoming && position == 0
    {
      this.incoming, position := incoming, 0;
    }

    /** The next message, or nothing when none arrives any more. */
    method Receive() returns (message: Option<Message>)
      requires Valid()
      modifies this
      ensures Valid()
      ensures message == if old(position) < |incoming| then Some(incoming[old(position)]) else None
      ensures position == if old(position) < |incoming| then old(position) + 1 else old(position)
    {
      if position == |incoming| {
        return None;
      }
      message := Some(incoming[position]);
      position := position + 1;
    }
  }

  /** The application's receive channel: buffered messages first, then the server's. */
  class Replay {
    const messages: seq<Message>
    const receiver: Receiver
    var messageIndex: nat
    /** Everything the application has received so far. */
    ghost var observed: seq<Message>

    /** The application has seen the original messages, in order, without gap or repetition. */
    ghost predicate Valid()
      reads this, receiver
    {
      && receiver.Valid()
      && messageIndex <= |messages| <= receiver.position
      && messages == receiver.incoming[..|messages|]
      && (messageIndex < |messages| ==> receiver.position == |messages|)
      && observed == receiver.incoming[..if messageIndex < |messages| then messageIndex else receiver.position]
    }

    constructor (messages: seq<Message>, receiver: Receiver)
      requires receiver.Valid() && messages == receiver.incoming[..receiver.position]
      ensures Valid() && this.receiver == receiver && observed == [] && this.messages == messages
    {
      this.messages, this.receiver := messages, receiver;
      messageIndex, observed := 0, [];
    }

    method Receive() returns (message: Option<Message>)
      requires Valid()
      modifies this, receiver
      ensures Valid()
      ensures message == if |old(observed)| < |receiver.incoming| then Some(receiver.incoming[|old(observed)|])
                         else None
      ensures observed == old(observed) + if message.Some? then [message.value] else []
    {
      if messageIndex < |messages| {
        message := Some(messages[messageIndex]);
        messageIndex := messageIndex + 1;
      } else {
        message := receiver.Receive();
      }
      if message.Some? {
        observed := observed + [message.value];
      }
    }
  }

  datatype Response =
    | PassedThrough(receiver: Receiver)
    | Rejected
    | Forwarded(replay: Replay)
    | StillWaiting

  class RequestBodyLimitMiddleware {
    const maxBodyBytes: nat

    constructor (maxBodyBytes: nat)
      ensures this.maxBodyBytes == maxBodyBytes
    {
      this.maxBodyBytes := maxBodyBytes;
    }

    method Handle(scope: Scope, receiver: Receiver) returns (response: Response)
      requires receiver.Valid() && receiver.position == 0
      modifies receiver
      ensures receiver.Valid()
      ensures scope.kind != "http" ==> response == PassedThrough(receiver) && receiver.position == 0
      ensures scope.kind == "http" && DeclaredTooLong(scope, maxBodyBytes) ==>
                response.Rejected? && receiver.position == 0
      ensures scope.kind == "http" && !DeclaredTooLong(scope, maxBodyBytes) ==>
                match response
                case PassedThrough(_) => false
                case Rejected =>
                  receiver.position > 0 && RejectsAt(maxBodyBytes, receiver.incoming, receiver.position - 1)
                case Forwarded(replay) =>
                  && receiver.position > 0 && ForwardsAt(maxBodyBytes, receiver.incoming, receiver.position - 1)
                  && fresh(replay) && replay.Valid() && replay.receiver == receiver && replay.observed == []
                case StillWaiting =>
                  && receiver.position == |receiver.incoming|
                  && BodyOpen(receiver.incoming, receiver.position)
                  && Within(maxBodyBytes, receiver.incoming, receiver.position)
    {
      if scope.kind != "http" {
        return PassedThrough(receiver);
      }
      DeclaredIff(scope, maxBodyBytes);
      var contentLength := ContentLength(scope.headers);
      if contentLength.Some? {
        var declaredLength := match contentLength.value case Number(n) => n case NotANumber => 0;
        if declaredLength > maxBodyBytes {
          return Rejected;
        }
      }
      var consumed, messages := 0, [];
      while true
        invariant receiver.Valid() && messages == receiver.incoming[..receiver.position]
        invariant consumed == |BodyBytes(receiver.incoming, receiver.position)|
        invariant BodyOpen(receiver.incoming, receiver.position)
        invariant Within(maxBodyBytes, receiver.incoming, receiver.position)
        decreases |receiver.incoming| - receiver.position
      {
        var next := receiver.Receive();
        if next.None? {
          return StillWaiting;
        }
        var message := next.value;
        messages := messages + [message];
        if message.Request? {
          consumed := consumed + if message.body.Some? then |message.body.value| else 0;
          if consumed > maxBodyBytes {
            return Rejected;
          }
          if message.moreBody != Some(true) {
            break;
          }
        } else if message.Disconnect? {
          break;
        }
      }
      var replay := new Replay(messages, receiver);
      return Forwarded(replay);
    }
  }
}
