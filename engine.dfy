/** The A2iA recognition engine as the plugin sees it through `Dispatch.call`: a COM object that
    answers each call with a handle or an error. How it answers is a parameter of the model; what
    the model keeps is the transcript of calls, from which the channels and requests it holds open
    follow. */
module A2iaEngine {
  import opened Wrappers
  import opened Jacob

  /** The engine methods the plugin calls, with their arguments. Handles are integers, the value
      of `new Long(variant.toString())`. */
  datatype Call =
    | ScrInit(arg: string)
    | ScrCreateChannelParam
    | SetProperty(target: int, property: string, value: string)
    | ScrOpenChannelExt(channelParamId: int, timeoutMs: int)
    | ScrOpenDocumentTable(path: string)
    | ScrGetDefaultDocument(tableId: int)
    | ScrSetBuffer(target: int, property: string, buffer: seq<Variant>)
    | ScrOpenRequest(channelId: int, documentId: int)
    | ScrGetResult(channelId: int, requestId: int, timeoutMs: int)
    | ScrCloseRequest(requestId: int)
    | ScrCloseChannel(channelId: int)

  /** A call returns a handle, or raises a `ComFailException` with a message. */
  datatype Reply = Returned(id: int) | Raised(message: string)

  datatype Exchange = Exchange(call: Call, reply: Reply)

  /** The channels open after `c` answered `reply`. */
  function ChannelsAfter(open: set<int>, c: Call, reply: Reply): set<int> {
    if reply.Raised? then open
    else match c
      case ScrOpenChannelExt(_, _) => open + {reply.id}
      case ScrCloseChannel(h) => open - {h}
      case _ => open
  }

  /** The requests open after `c` answered `reply`. */
  function RequestsAfter(open: set<int>, c: Call, reply: Reply): set<int> {
    if reply.Raised? then open
    else match c
      case ScrOpenRequest(_, _) => open + {reply.id}
      case ScrCloseRequest(h) => open - {h}
      case _ => open
  }

  /** The channels open after the exchanges `t`, starting from `open`. */
  function ChannelsAfterAll(open: set<int>, t: seq<Exchange>): set<int>
    decreases |t|
  {
    if t == [] then open else ChannelsAfterAll(ChannelsAfter(open, t[0].call, t[0].reply), t[1..])
  }

  /** The requests open after the exchanges `t`, starting from `open`. */
  function RequestsAfterAll(open: set<int>, t: seq<Exchange>): set<int>
    decreases |t|
  {
    if t == [] then open else RequestsAfterAll(RequestsAfter(open, t[0].call, t[0].reply), t[1..])
  }

  /** Exchanges made one after the other open and close handles one after the other. */
  lemma {:induction false} AfterAllAppend(channels: set<int>, requests: set<int>, t: seq<Exchange>, u: seq<Exchange>)
    ensures ChannelsAfterAll(channels, t + u) == ChannelsAfterAll(ChannelsAfterAll(channels, t), u)
    ensures RequestsAfterAll(requests, t + u) == RequestsAfterAll(RequestsAfterAll(requests, t), u)
    decreases |t|
  {
    if t == [] {
      assert t + u == u;
    } else {
      assert (t + u)[1..] == t[1..] + u;
      AfterAllAppend(ChannelsAfter(channels, t[0].call, t[0].reply), RequestsAfter(requests, t[0].call, t[0].reply), t[1..], u);
    }
  }

  /** The transcript `t` follows the script `calls` as far as it goes: each call is the next one
      of the script, and every call but the last returned. */
  predicate Follows(t: seq<Exchange>, calls: seq<Call>) {
    |t| <= |calls|
    && (forall i :: 0 <= i < |t| ==> t[i].call == calls[i])
    && forall i :: 0 <= i < |t| - 1 ==> t[i].reply.Returned?
  }

  /** `t` stopped on an engine error. */
  predicate RaisedLast(t: seq<Exchange>) {
    t != [] && t[|t| - 1].reply.Raised?
  }

  /** `t` makes every call of `calls`, each of which returned. */
  predicate Completes(t: seq<Exchange>, calls: seq<Call>) {
    Follows(t, calls) && |t| == |calls| && !RaisedLast(t)
  }

  /** `t` makes the calls of `calls` in order and stops early only when one raises: how a block
      of calls runs when an exception ends it. */
  predicate Performs(t: seq<Exchange>, calls: seq<Call>) {
    Follows(t, calls) && (|t| < |calls| ==> RaisedLast(t))
  }

  /** The transcript `t` (made after `log`) extended by the call `c` and the engine's answer. */
  function Step(respond: (seq<Exchange>, Call) -> Reply, log: seq<Exchange>, t: seq<Exchange>, c: Call): seq<Exchange> {
    t + [Exchange(c, respond(log + t, c))]
  }

  /** A transcript that follows the start of a script follows the script. */
  lemma FollowsPrefix(t: seq<Exchange>, calls: seq<Call>, n: nat)
    requires n <= |calls| && Follows(t, calls[..n])
    ensures Follows(t, calls)
  {
    forall i | 0 <= i < |t| ensures t[i].call == calls[i] {
      assert calls[..n][i] == calls[i];
    }
  }

  /** A part that performs the first `n` calls of a script and succeeds only when it made them
      all: it follows the script, succeeds exactly when it completes it, and then ends with the
      handle of the script's last call. */
  lemma PerformsEnds(t: seq<Exchange>, calls: seq<Call>, n: nat, ok: bool)
    requires 0 < n <= |calls| && Performs(t, calls[..n])
    requires ok ==> n == |calls| && !RaisedLast(t)
    requires !ok && !RaisedLast(t) ==> |t| < |calls|
    ensures Follows(t, calls)
    ensures ok <==> Completes(t, calls)
    ensures ok ==> HandleAt(t, |calls| - 1) == t[|t| - 1].reply.id
  {
    FollowsPrefix(t, calls, n);
  }

  /** The next call of a script, made on a transcript that follows it and has not stopped,
      keeps it on the script and leaves the earlier exchanges alone. */
  lemma StepFollows(respond: (seq<Exchange>, Call) -> Reply, log: seq<Exchange>, t: seq<Exchange>, calls: seq<Call>)
    requires Follows(t, calls) && !RaisedLast(t) && |t| < |calls|
    ensures var u := Step(respond, log, t, calls[|t|]);
      Follows(u, calls) && |u| == |t| + 1 && (forall k :: 0 <= k < |t| ==> u[k] == t[k])
      && u[|t|] == Exchange(calls[|t|], respond(log + t, calls[|t|]))
  {
  }

  /** One more call opens or closes what that call alone opens or closes. */
  lemma StepAfter(channels: set<int>, requests: set<int>, respond: (seq<Exchange>, Call) -> Reply, log: seq<Exchange>,
                  t: seq<Exchange>, c: Call)
    ensures var reply := respond(log + t, c);
      ChannelsAfterAll(channels, Step(respond, log, t, c)) == ChannelsAfter(ChannelsAfterAll(channels, t), c, reply)
      && RequestsAfterAll(requests, Step(respond, log, t, c)) == RequestsAfter(RequestsAfterAll(requests, t), c, reply)
  {
    var e := Exchange(c, respond(log + t, c));
    AfterAllAppend(channels, requests, t, [e]);
    assert [e][1..] == [];
  }

  /** The script `calls` run from the transcript `t`: its remaining calls, one after the other,
      until one raises. */
  function RunCalls(respond: (seq<Exchange>, Call) -> Reply, log: seq<Exchange>, t: seq<Exchange>, calls: seq<Call>): seq<Exchange>
    decreases |calls| - |t|
  {
    if |t| >= |calls| || RaisedLast(t) then t else RunCalls(respond, log, Step(respond, log, t, calls[|t|]), calls)
  }

  /** Running a script that has not stopped makes its next call first. */
  lemma RunCallsFrom(respond: (seq<Exchange>, Call) -> Reply, log: seq<Exchange>, t: seq<Exchange>, calls: seq<Call>, c: Call)
    requires |t| < |calls| && calls[|t|] == c && !RaisedLast(t)
    ensures RunCalls(respond, log, t, calls) == RunCalls(respond, log, Step(respond, log, t, c), calls)
  {
  }

  /** A script whose last call raised runs no further. */
  lemma RunCallsStopped(respond: (seq<Exchange>, Call) -> Reply, log: seq<Exchange>, t: seq<Exchange>, calls: seq<Call>)
    requires RaisedLast(t)
    ensures RunCalls(respond, log, t, calls) == t
  {
  }

  /** Running a script performs it: every call in order, stopping only on an error, and the
      exchanges already made stay. */
  lemma {:induction false} RunCallsPerforms(respond: (seq<Exchange>, Call) -> Reply, log: seq<Exchange>, t: seq<Exchange>, calls: seq<Call>)
    requires Follows(t, calls)
    ensures var u := RunCalls(respond, log, t, calls);
      Performs(u, calls) && |t| <= |u| && forall k :: 0 <= k < |t| ==> u[k] == t[k]
    decreases |calls| - |t|
  {
    if |t| < |calls| && !RaisedLast(t) {
      StepFollows(respond, log, t, calls);
      RunCallsPerforms(respond, log, Step(respond, log, t, calls[|t|]), calls);
    }
  }

  /** Running the first `n` calls of a script, when that succeeds only by making every call of
      the script: the transcript follows the script, succeeds exactly when it completes it, and
      then ends with the handle of the script's last call. */
  lemma RunPartEnds(respond: (seq<Exchange>, Call) -> Reply, log: seq<Exchange>, calls: seq<Call>, n: nat,
                    t: seq<Exchange>, ok: bool)
    requires 0 < n <= |calls| && t == RunCalls(respond, log, [], calls[..n])
    requires ok ==> n == |calls| && !RaisedLast(t)
    requires !ok && !RaisedLast(t) ==> |t| < |calls|
    ensures Follows(t, calls)
    ensures ok <==> Completes(t, calls)
    ensures ok ==> HandleAt(t, |calls| - 1) == t[|t| - 1].reply.id
  {
    RunCallsPerforms(respond, log, [], calls[..n]);
    PerformsEnds(t, calls, n, ok);
  }

  /** Transcripts grow by appending: a part's exchanges, then the next part's. */
  lemma AppendAssoc(log: seq<Exchange>, t: seq<Exchange>, u: seq<Exchange>)
    ensures (log + t) + u == log + (t + u)
  {
  }

  /** The handle the `i`-th call of `t` returned; 0 (never used) when it has none. */
  function HandleAt(t: seq<Exchange>, i: nat): int {
    if i < |t| && t[i].reply.Returned? then t[i].reply.id else 0
  }

  class Engine {
    /** How the engine answers a call, given every exchange before it. */
    const respond: (seq<Exchange>, Call) -> Reply
    /** The output zones of a result handle, as `ObjectProperty` reads them. */
    const resultZones: int -> map<string, Variant>
    var log: seq<Exchange>

    constructor (respond: (seq<Exchange>, Call) -> Reply, resultZones: int -> map<string, Variant>)
      ensures this.respond == respond && this.resultZones == resultZones
      ensures log == []
    {
      this.respond := respond;
      this.resultZones := resultZones;
      log := [];
    }

    /** `Dispatch.call`: the engine answers, and the exchange is appended to the transcript. */
    method Call(c: Call) returns (reply: Reply)
      modifies this
      ensures reply == respond(old(log), c)
      ensures log == old(log) + [Exchange(c, reply)]
    {
      reply := respond(log, c);
      log := log + [Exchange(c, reply)];
    }
  }
}
