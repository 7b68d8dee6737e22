/** microRPC: a generator from service descriptions to a dispatching server and
    client stubs, the run-time library the generated code calls, and the proof
    that a client over a server behaves as calls on the service itself. */
module MicroRpc {
  import opened Prelude
  import opened LengthDelimited

  type U32 = x: int | 0 <= x < 0x1_0000_0000
  type I32 = x: int | -0x8000_0000 <= x < 0x8000_0000

  datatype Result<+T, +E> = Success(value: T) | Failure(error: E)

  // ---------- Status codes ----------

  datatype StatusCode =
    | OkCode | Cancelled | Unknown | InvalidArgument | DeadlineExceeded | NotFound | AlreadyExists
    | PermissionDenied | ResourceExhausted | FailedPrecondition | Aborted | OutOfRange | Unimplemented
    | Internal | Unavailable | DataLoss | Unauthenticated

  /** The discriminants of the `StatusCode` enum. */
  function ToU32(code: StatusCode): (r: U32) {
    match code
    case OkCode => 0
    case Cancelled => 1
    case Unknown => 2
    case InvalidArgument => 3
    case DeadlineExceeded => 4
    case NotFound => 5
    case AlreadyExists => 6
    case PermissionDenied => 7
    case ResourceExhausted => 8
    case FailedPrecondition => 9
    case Aborted => 10
    case OutOfRange => 11
    case Unimplemented => 12
    case Internal => 13
    case Unavailable => 14
    case DataLoss => 15
    case Unauthenticated => 16
  }

  function FromU32(i: U32): (r: StatusCode)
    ensures ToU32(r) == if i <= 16 then i else ToU32(Unknown)
  {
    match i
    case 0 => OkCode
    case 1 => Cancelled
    case 2 => Unknown
    case 3 => InvalidArgument
    case 4 => DeadlineExceeded
    case 5 => NotFound
    case 6 => AlreadyExists
    case 7 => PermissionDenied
    case 8 => ResourceExhausted
    case 9 => FailedPrecondition
    case 10 => Aborted
    case 11 => OutOfRange
    case 12 => Unimplemented
    case 13 => Internal
    case 14 => Unavailable
    case 15 => DataLoss
    case 16 => Unauthenticated
    case _ => Unknown
  }

  datatype Status = Status(code: StatusCode, message: string)

  datatype ProtoStatus = ProtoStatus(code: I32, message: string)

  /** `as u32` on an `i32`. */
  function AsU32(i: I32): (r: U32) {
    if i < 0 then i + 0x1_0000_0000 else i
  }

  function ToProtoStatus(s: Status): (r: ProtoStatus) {
    ProtoStatus(ToU32(s.code), s.message)
  }

  function FromProtoStatus(s: ProtoStatus): (r: Status) {
    Status(FromU32(AsU32(s.code)), s.message)
  }

  /** Every status survives the wire; a wire status survives exactly when its code is a gRPC code. */
  lemma StatusRoundTrip(s: Status, p: ProtoStatus)
    ensures FromProtoStatus(ToProtoStatus(s)) == s
    ensures ToProtoStatus(FromProtoStatus(p)) == p <==> 0 <= p.code <= 16
    ensures !(0 <= p.code <= 16) ==> FromProtoStatus(p).code == Unknown
  {
    var code := FromU32(ToU32(s.code));
    assert ToU32(code) == ToU32(s.code);
  }

  // ---------- Wrappers ----------

  datatype RequestWrapper = RequestWrapper(methodId: U32, body: Bytes)

  datatype ResponseBody = ErrorBody(status: ProtoStatus) | Body(bytes: Bytes)

  datatype ResponseWrapper = ResponseWrapper(response: Option<ResponseBody>)

  function ToWrapper(r: Result<Bytes, Status>): (w: ResponseWrapper) {
    match r
    case Success(body) => ResponseWrapper(Some(Body(body)))
    case Failure(status) => ResponseWrapper(Some(ErrorBody(ToProtoStatus(status))))
  }

  function FromWrapper(w: ResponseWrapper): (r: Result<Bytes, Status>) {
    match w.response
    case None => Failure(Status(InvalidArgument, "invalid response wrapper"))
    case Some(ErrorBody(status)) => Failure(FromProtoStatus(status))
    case Some(Body(body)) => Success(body)
  }

  lemma WrapperRoundTrip(r: Result<Bytes, Status>)
    ensures FromWrapper(ToWrapper(r)) == r && ToWrapper(r).response.Some?
  {
    if r.Failure? {
      StatusRoundTrip(r.error, ToProtoStatus(r.error));
    }
  }

  // ---------- Service descriptions and the code generated from them ----------

  datatype Method = Method(id: U32, name: string, inputType: string, outputType: string)

  /** An arm of the generated server's `match`: decode as `requestType`, call `handler`. */
  datatype Arm = Arm(id: U32, requestType: string, handler: string)

  /** A generated client method. */
  datatype Stub = Stub(name: string, id: U32, responseType: string, asynchronous: bool)

  /** One arm per method, in order; a final arm answers `Unimplemented`. */
  predicate ServerGenerated(methods: seq<Method>, arms: seq<Arm>) {
    && |arms| == |methods|
    && forall i :: 0 <= i < |methods| ==> arms[i] == Arm(methods[i].id, methods[i].inputType, methods[i].name)
  }

  /** One stub per method, in order. */
  predicate ClientGenerated(methods: seq<Method>, stubs: seq<Stub>, asynchronous: bool) {
    && |stubs| == |methods|
    && forall i :: 0 <= i < |methods| ==>
         stubs[i] == Stub(methods[i].name, methods[i].id, methods[i].outputType, asynchronous)
  }

  method GenerateService(methods: seq<Method>) returns (arms: seq<Arm>)
    ensures ServerGenerated(methods, arms)
  {
    arms := [];
    for k := 0 to |methods|
      invariant ServerGenerated(methods[..k], arms)
    {
      arms := arms + [Arm(methods[k].id, methods[k].inputType, methods[k].name)];
    }
    assert methods[..|methods|] == methods;
  }

  method GenerateServiceClient(methods: seq<Method>, asynchronous: bool) returns (stubs: seq<Stub>)
    ensures ClientGenerated(methods, stubs, asynchronous)
  {
    stubs := [];
    for k := 0 to |methods|
      invariant ClientGenerated(methods[..k], stubs, asynchronous)
    {
      stubs := stubs + [Stub(methods[k].name, methods[k].id, methods[k].outputType, asynchronous)];
    }
    assert methods[..|methods|] == methods;
  }

  // ---------- Meaning of the generated code ----------

  /** The message codecs prost derives: wrappers, and application messages of the named types. */
  datatype Wire<!M> = Wire(request: Codec<RequestWrapper>, response: Codec<ResponseWrapper>,
                           encode: M -> Bytes, decode: (string, Bytes) -> Option<M>, isA: (string, M) -> bool)

  ghost predicate WellBehaved<M(!new)>(w: Wire<M>) {
    && RoundTrips(w.request)
    && RoundTrips(w.response)
    && forall t, m :: w.isA(t, m) ==> w.decode(t, w.encode(m)) == Some(m)
  }

  /** The developer's implementation: method name, service state and request to new state and result. */
  type Implementation<!S, !M> = (string, S, M) -> (S, Result<M, Status>)

  /** Rust's typing of the service trait. */
  ghost predicate Typed<S(!new), M(!new)>(w: Wire<M>, methods: seq<Method>, impl: Implementation<S, M>) {
    forall i: nat, s, q :: i < |methods| && w.isA(methods[i].inputType, q) && impl(methods[i].name, s, q).1.Success? ==>
      w.isA(methods[i].outputType, impl(methods[i].name, s, q).1.value)
  }

  /** A `match` on integer literals takes the first arm that fits. */
  function FindArm(arms: seq<Arm>, id: U32): (r: Option<Arm>)
    ensures r.Some? ==> r.value in arms && r.value.id == id
    ensures r.None? <==> forall i :: 0 <= i < |arms| ==> arms[i].id != id
  {
    if arms == [] then None
    else if arms[0].id == id then Some(arms[0])
    else FindArm(arms[1..], id)
  }

  function BadRequestWrapper(): (r: Status) { Status(Internal, "Client failed to deserialize the response") }
  function BadRequest(): (r: Status) { Status(Internal, "Service failed to deserialize the request") }
  function BadResponseWrapper(): (r: Status) { Status(Internal, "Client failed to deserialize response wrapper") }
  function BadResponse(): (r: Status) { Status(Internal, "Client failed to deserialize response body") }

  /** `invoke_inner` of the generated server. */
  function InvokeInner<S, M>(w: Wire<M>, arms: seq<Arm>, impl: Implementation<S, M>, s: S, request: Bytes)
    : (r: (S, Result<Bytes, Status>))
  {
    match w.request.decode(request)
    case None => (s, Failure(BadRequestWrapper()))
    case Some(wrapper) =>
      match FindArm(arms, wrapper.methodId)
      case None => (s, Failure(Status(Unimplemented, "")))
      case Some(arm) =>
        match w.decode(arm.requestType, wrapper.body)
        case None => (s, Failure(BadRequest()))
        case Some(q) =>
          var (next, result) := impl(arm.handler, s, q);
          (next, match result
                 case Success(response) => Success(w.encode(response))
                 case Failure(status) => Failure(status))
  }

  /** The generated server struct, a transport in its own right. */
  class Server<S, M> {
    const wire: Wire<M>
    const arms: seq<Arm>
    const impl: Implementation<S, M>
    var service: S

    constructor (wire: Wire<M>, arms: seq<Arm>, impl: Implementation<S, M>, service: S)
      ensures this.wire == wire && this.arms == arms && this.impl == impl && this.service == service
    {
      this.wire, this.arms, this.impl, this.service := wire, arms, impl, service;
    }

    /** The reply carries the result of the one dispatched call: whoever decodes it gets that result back,
        body or status. */
    method Invoke(request: Bytes) returns (response: Bytes)
      modifies this
      ensures var (next, result) := InvokeInner(wire, arms, impl, old(service), request);
        && service == next && response == wire.response.encode(ToWrapper(result))
        && (RoundTrips(wire.response) ==>
              wire.response.decode(response).Some? && FromWrapper(wire.response.decode(response).value) == result)
    {
      var (next, result) := InvokeInner(wire, arms, impl, service, request);
      WrapperRoundTrip(result);
      service := next;
      response := wire.response.encode(ToWrapper(result));
    }
  }

  /** The bytes `client_invoke` and `async_client_invoke` send. */
  function RequestBytes<M>(w: Wire<M>, id: U32, request: M): (r: Bytes) {
    w.request.encode(RequestWrapper(id, w.encode(request)))
  }

  /** How `client_invoke` reads a reply. */
  function ReadReply<M>(w: Wire<M>, responseType: string, reply: Bytes): (r: Result<M, Status>) {
    match w.response.decode(reply)
    case None => Failure(BadResponseWrapper())
    case Some(wrapper) =>
      match FromWrapper(wrapper)
      case Failure(status) => Failure(status)
      case Success(body) =>
        match w.decode(responseType, body)
        case None => Failure(BadResponse())
        case Some(m) => Success(m)
  }

  /** How `async_client_invoke` reads a reply. */
  function ReadReplyAsync<M>(w: Wire<M>, responseType: string, reply: Bytes): (r: Result<M, Status>) {
    match w.response.decode(reply)
    case None => Failure(BadResponseWrapper())
    case Some(wrapper) =>
      match wrapper.response
      case None => Failure(Status(Internal, ""))
      case Some(ErrorBody(status)) => Failure(FromProtoStatus(status))
      case Some(Body(body)) =>
        match w.decode(responseType, body)
        case None => Failure(BadResponse())
        case Some(m) => Success(m)
  }

  /** The two clients read every reply alike except a well-formed wrapper without content. */
  lemma ClientsAgreeUnlessEmptyWrapper<M>(w: Wire<M>, responseType: string, reply: Bytes)
    ensures ReadReply(w, responseType, reply) == ReadReplyAsync(w, responseType, reply)
       <==> w.response.decode(reply) != Some(ResponseWrapper(None))
    ensures w.response.decode(reply) == Some(ResponseWrapper(None)) ==>
              ReadReply(w, responseType, reply) == Failure(Status(InvalidArgument, "invalid response wrapper"))
              && ReadReplyAsync(w, responseType, reply) == Failure(Status(Internal, ""))
    ensures w.response.decode(reply).None? ==>
              ReadReply(w, responseType, reply)
              == Failure(Status(Internal, "Client failed to deserialize response wrapper"))
    ensures forall body :: w.response.decode(reply) == Some(ResponseWrapper(Some(Body(body)))) ==>
              ReadReply(w, responseType, reply)
              == (match w.decode(responseType, body)
                  case Some(m) => Success(m)
                  case None => Failure(Status(Internal, "Client failed to deserialize response body")))
  {
    if w.response.decode(reply) == Some(ResponseWrapper(None)) {
      assert ReadReply(w, responseType, reply).error.code == InvalidArgument;
      assert ReadReplyAsync(w, responseType, reply).error.code == Internal;
    }
  }

  /** How a generated client method reads a reply. */
  function Read<M>(w: Wire<M>, stub: Stub, reply: Bytes): (r: Result<M, Status>)
    ensures w.response.decode(reply) == Some(ResponseWrapper(None)) ==>
              r.Failure? && r.error.code == if stub.asynchronous then Internal else InvalidArgument
  {
    if stub.asynchronous then ReadReplyAsync(w, stub.responseType, reply) else ReadReply(w, stub.responseType, reply)
  }

  /** A generated client method over a server object it holds as its transport. */
  method ClientInvoke<S, M>(server: Server<S, M>, stub: Stub, request: M) returns (r: Result<M, Status>)
    modifies server
    ensures (server.service, Success(r))
         == Remote<S, M, ()>(server.wire, server.arms, stub, server.impl, old(server.service), Call(0, request, Delivered))
  {
    var body := server.wire.encode(request);
    var reply := server.Invoke(server.wire.request.encode(RequestWrapper(stub.id, body)));
    r := Read(server.wire, stub, reply);
  }

  // ---------- Runs ----------

  /** What a transport between the two does with one call. */
  datatype Delivery<+E> = Delivered | RequestLost(error: E) | ResponseLost(error: E)

  /** A call of the `index`-th method. */
  datatype Call<+M, +E> = Call(index: nat, request: M, delivery: Delivery<E>)

  /** The two layers a generated client method returns. */
  type Reply<+M, +E> = Result<Result<M, Status>, E>

  /** One call through stub, transport and server. */
  function Remote<S, M, E>(w: Wire<M>, arms: seq<Arm>, stub: Stub, impl: Implementation<S, M>, s: S, c: Call<M, E>)
    : (r: (S, Reply<M, E>))
  {
    if c.delivery.RequestLost? then (s, Failure(c.delivery.error))
    else
      var (next, result) := InvokeInner(w, arms, impl, s, RequestBytes(w, stub.id, c.request));
      if c.delivery.ResponseLost? then (next, Failure(c.delivery.error))
      else (next, Success(Read(w, stub, w.response.encode(ToWrapper(result)))))
  }

  /** The same call made on the service directly: executed once if the request arrives, else not. */
  function Direct<S, M, E>(m: Method, impl: Implementation<S, M>, s: S, c: Call<M, E>): (r: (S, Reply<M, E>)) {
    match c.delivery
    case RequestLost(error) => (s, Failure(error))
    case ResponseLost(error) => (impl(m.name, s, c.request).0, Failure(error))
    case Delivered => (impl(m.name, s, c.request).0, Success(impl(m.name, s, c.request).1))
  }

  /** No earlier method has the same id. */
  predicate FirstWithId(methods: seq<Method>, index: nat)
    requires index < |methods|
  {
    forall i :: 0 <= i < index ==> methods[i].id != methods[index].id
  }

  lemma {:induction false} FindArmOfFirst(methods: seq<Method>, arms: seq<Arm>, index: nat)
    requires ServerGenerated(methods, arms)
    requires index < |methods| && FirstWithId(methods, index)
    ensures FindArm(arms, methods[index].id) == Some(arms[index])
    decreases index
  {
    if index > 0 {
      assert forall i :: 0 <= i < index - 1 ==> methods[1..][i].id == methods[i + 1].id;
      FindArmOfFirst(methods[1..], arms[1..], index - 1);
    }
  }

  /** One remote call of a method that is the first with its id is the direct call. */
  lemma CallSimulates<S(!new), M(!new), E>(w: Wire<M>, methods: seq<Method>, arms: seq<Arm>, stubs: seq<Stub>,
                                           asynchronous: bool, impl: Implementation<S, M>, s: S, c: Call<M, E>)
    requires WellBehaved(w) && Typed(w, methods, impl)
    requires ServerGenerated(methods, arms) && ClientGenerated(methods, stubs, asynchronous)
    requires c.index < |methods| && FirstWithId(methods, c.index) && w.isA(methods[c.index].inputType, c.request)
    ensures Remote(w, arms, stubs[c.index], impl, s, c) == Direct(methods[c.index], impl, s, c)
  {
    var m := methods[c.index];
    FindArmOfFirst(methods, arms, c.index);
    var (next, result) := impl(m.name, s, c.request);
    var inner := InvokeInner(w, arms, impl, s, RequestBytes(w, m.id, c.request)).1;
    WrapperRoundTrip(inner);
    assert w.response.decode(w.response.encode(ToWrapper(inner))) == Some(ToWrapper(inner));
    ClientsAgreeUnlessEmptyWrapper(w, m.outputType, w.response.encode(ToWrapper(inner)));
    if result.Success? {
      assert w.isA(m.outputType, result.value);
    }
  }

  function RemoteRun<S, M, E>(w: Wire<M>, arms: seq<Arm>, stubs: seq<Stub>, impl: Implementation<S, M>, s: S,
                              calls: seq<Call<M, E>>): (r: (S, seq<Reply<M, E>>))
    requires forall i :: 0 <= i < |calls| ==> calls[i].index < |stubs|
    decreases |calls|
  {
    if calls == [] then (s, [])
    else
      var (next, reply) := Remote(w, arms, stubs[calls[0].index], impl, s, calls[0]);
      var (last, replies) := RemoteRun(w, arms, stubs, impl, next, calls[1..]);
      (last, [reply] + replies)
  }

  function DirectRun<S, M, E>(methods: seq<Method>, impl: Implementation<S, M>, s: S, calls: seq<Call<M, E>>)
    : (r: (S, seq<Reply<M, E>>))
    requires forall i :: 0 <= i < |calls| ==> calls[i].index < |methods|
    decreases |calls|
  {
    if calls == [] then (s, [])
    else
      var (next, reply) := Direct(methods[calls[0].index], impl, s, calls[0]);
      var (last, replies) := DirectRun(methods, impl, next, calls[1..]);
      (last, [reply] + replies)
  }

  /** Simulation: over every sequence of calls, each of a method that is the first with its id, and
      whatever the transport loses, generated clients of either kind over the generated server give
      the results, statuses and service state of direct calls. */
  lemma {:induction false} RemoteSimulatesDirect<S(!new), M(!new), E>(
      w: Wire<M>, methods: seq<Method>, arms: seq<Arm>, stubs: seq<Stub>, asynchronous: bool,
      impl: Implementation<S, M>, s: S, calls: seq<Call<M, E>>)
    requires WellBehaved(w) && Typed(w, methods, impl)
    requires ServerGenerated(methods, arms) && ClientGenerated(methods, stubs, asynchronous)
    requires forall i :: 0 <= i < |calls| ==> calls[i].index < |methods| && FirstWithId(methods, calls[i].index)
    requires forall i :: 0 <= i < |calls| ==> w.isA(methods[calls[i].index].inputType, calls[i].request)
    ensures RemoteRun(w, arms, stubs, impl, s, calls) == DirectRun(methods, impl, s, calls)
    decreases |calls|
  {
    hide WellBehaved, Typed, Remote, Direct, FirstWithId;
    if calls != [] {
      CallSimulates(w, methods, arms, stubs, asynchronous, impl, s, calls[0]);
      var next := Direct(methods[calls[0].index], impl, s, calls[0]).0;
      RemoteSimulatesDirect(w, methods, arms, stubs, asynchronous, impl, next, calls[1..]);
    }
  }

  /** With unique ids that is every sequence of calls. */
  lemma UniqueIdsSimulate<S(!new), M(!new), E>(
      w: Wire<M>, methods: seq<Method>, arms: seq<Arm>, stubs: seq<Stub>, asynchronous: bool,
      impl: Implementation<S, M>, s: S, calls: seq<Call<M, E>>)
    requires WellBehaved(w) && Typed(w, methods, impl)
    requires ServerGenerated(methods, arms) && ClientGenerated(methods, stubs, asynchronous)
    requires forall i, j :: 0 <= i < j < |methods| ==> methods[i].id != methods[j].id
    requires forall i :: 0 <= i < |calls| ==> calls[i].index < |methods|
    requires forall i :: 0 <= i < |calls| ==> w.isA(methods[calls[i].index].inputType, calls[i].request)
    ensures RemoteRun(w, arms, stubs, impl, s, calls) == DirectRun(methods, impl, s, calls)
  {
    RemoteSimulatesDirect(w, methods, arms, stubs, asynchronous, impl, s, calls);
  }

  /** Records the name of the method that ran and answers `Cancelled`. */
  function Recorder<M>(name: string, s: string, q: M): (r: (string, Result<M, Status>)) {
    (name, Failure(Status(Cancelled, "")))
  }

  /** The condition is exact: a method whose id an earlier, differently named method has can never be
      reached, and a service that records its calls tells the difference for every request. */
  lemma ShadowedMethodDiverges<M(!new)>(w: Wire<M>, methods: seq<Method>, arms: seq<Arm>, stubs: seq<Stub>,
                                        asynchronous: bool, index: nat, request: M)
    requires WellBehaved(w)
    requires ServerGenerated(methods, arms) && ClientGenerated(methods, stubs, asynchronous)
    requires index < |methods| && !FirstWithId(methods, index)
    requires forall i :: 0 <= i < index && methods[i].id == methods[index].id ==> methods[i].name != methods[index].name
    ensures var c: Call<M, ()> := Call(index, request, Delivered);
      Remote(w, arms, stubs[index], Recorder, methods[index].name + "?", c).0
      != Direct(methods[index], Recorder, methods[index].name + "?", c).0
  {
    FindArmOfShadowed(methods, arms, index);
    assert |methods[index].name + "?"| != |methods[index].name|;
    assert w.request.decode(RequestBytes(w, stubs[index].id, request))
        == Some(RequestWrapper(methods[index].id, w.encode(request)));
  }

  lemma {:induction false} FindArmOfShadowed(methods: seq<Method>, arms: seq<Arm>, index: nat)
    requires ServerGenerated(methods, arms)
    requires index < |methods| && !FirstWithId(methods, index)
    ensures exists i :: 0 <= i < index && methods[i].id == methods[index].id
                        && FindArm(arms, methods[index].id) == Some(arms[i])
    decreases index
  {
    if methods[0].id == methods[index].id {
      assert FindArm(arms, methods[index].id) == Some(arms[0]);
    } else {
      FindArmOfShadowed(methods[1..], arms[1..], index - 1);
      var i :| 0 <= i < index - 1 && methods[1..][i].id == methods[1..][index - 1].id
               && FindArm(arms[1..], methods[index].id) == Some(arms[1..][i]);
      assert methods[i + 1].id == methods[index].id && arms[i + 1] == arms[1..][i];
    }
  }

  /** Whatever bytes arrive, the server answers, and each answer has one cause: bytes that are no wrapper, an id
      no method has, a body that is not of the input type of the first method with that id; only
      otherwise is the service touched, by one call of that method, and its result is the answer. */
  lemma AnswersExactly<S, M(!new)>(w: Wire<M>, methods: seq<Method>, arms: seq<Arm>, impl: Implementation<S, M>, s: S,
                                   request: Bytes)
    requires ServerGenerated(methods, arms)
    ensures var answer := InvokeInner(w, arms, impl, s, request);
      match w.request.decode(request)
      case None => answer == (s, Failure(Status(Internal, "Client failed to deserialize the response")))
      case Some(wrapper) =>
        && ((forall i: nat :: i < |methods| ==> methods[i].id != wrapper.methodId) ==>
              answer == (s, Failure(Status(Unimplemented, ""))))
        && (forall i: nat :: i < |methods| && methods[i].id == wrapper.methodId && FirstWithId(methods, i) ==>
              AnswerOf(w, methods[i], impl, s, wrapper.body) == answer)
  {
    if w.request.decode(request).Some? {
      var wrapper := w.request.decode(request).value;
      assert forall i: nat :: i < |methods| ==> arms[i].id == methods[i].id;
      forall i: nat | i < |methods| && methods[i].id == wrapper.methodId && FirstWithId(methods, i)
        ensures AnswerOf(w, methods[i], impl, s, wrapper.body) == InvokeInner(w, arms, impl, s, request)
      {
        FindArmOfFirst(methods, arms, i);
      }
    }
  }

  /** What a call of this method with this body comes to. */
  function AnswerOf<S, M>(w: Wire<M>, m: Method, impl: Implementation<S, M>, s: S, body: Bytes)
    : (r: (S, Result<Bytes, Status>))
  {
    match w.decode(m.inputType, body)
    case None => (s, Failure(Status(Internal, "Service failed to deserialize the request")))
    case Some(q) =>
      (impl(m.name, s, q).0,
       match impl(m.name, s, q).1
       case Success(response) => Success(w.encode(response))
       case Failure(status) => Failure(status))
  }
}
