/** The encrypted session between `ClientEncryptor` and `ServerEncryptor`, over
    symbolic HPKE in base mode (section 5.1.1 of RFC 9180) and AEAD. */
module Session {
  import opened Prelude

  /** A server's public key and the ephemeral key a client draws. */
  type PublicKey = nat
  type Ephemeral = nat

  /** The `serialized_encapsulated_public_key` of a request. */
  datatype EncapsulatedKey = Encapsulated(ephemeral: Ephemeral) | NotAPoint(raw: Bytes)

  /** The exporter secret both sides derive: it depends on the encapsulated key and the recipient. */
  datatype Secret = Secret(ephemeral: Ephemeral, recipient: PublicKey)

  /** Requests and responses are sealed under different keys of one secret. */
  datatype AeadKey = RequestKey(secret: Secret) | ResponseKey(secret: Secret)

  datatype Ciphertext =
    | Sealed(key: AeadKey, nonce: Bytes, plaintext: Bytes, associatedData: Bytes)
    | NotSealed(raw: Bytes)

  datatype Message = Message(nonce: Bytes, ciphertext: Ciphertext, associatedData: Bytes)

  datatype Request = Request(message: Message, encapsulatedKey: Option<EncapsulatedKey>)

  datatype Content = Content(plaintext: Bytes, associatedData: Bytes)

  /** What a message claims to carry: a sealed plaintext with the associated data it was sealed with. */
  function ContentOf(m: Message): (r: Content)
    requires m.ciphertext.Sealed?
  {
    Content(m.ciphertext.plaintext, m.ciphertext.associatedData)
  }

  function Seal(key: AeadKey, nonce: Bytes, c: Content): (r: Message) {
    Message(nonce, Sealed(key, nonce, c.plaintext, c.associatedData), c.associatedData)
  }

  /** AEAD decryption succeeds only with the key, nonce and associated data used to seal. */
  function Open(key: AeadKey, m: Message): (r: Outcome<Content>) {
    if m.ciphertext.Sealed? && m.ciphertext.key == key && m.ciphertext.nonce == m.nonce
       && m.ciphertext.associatedData == m.associatedData
    then Ok(Content(m.ciphertext.plaintext, m.associatedData))
    else Err
  }

  /** The message shows the drawn nonce and was sealed with it. */
  predicate UsesNonce(m: Message, drawn: Option<Bytes>) {
    m.ciphertext.Sealed? && drawn == Some(m.nonce) && m.ciphertext.nonce == m.nonce
  }

  // ---------- Client ----------

  datatype ClientState = ClientState(secret: Secret, keyHasBeenSent: bool)

  /** `nonce` is `None` when drawing it or sealing with it fails; then nothing changes. */
  function ClientEncrypt(s: ClientState, nonce: Option<Bytes>, c: Content): (r: Outcome<(ClientState, Request)>)
    ensures r.Ok? ==> UsesNonce(r.value.1.message, nonce)
  {
    var n :- OkOr(nonce);
    Ok((s.(keyHasBeenSent := true),
        Request(Seal(RequestKey(s.secret), n, c),
                if s.keyHasBeenSent then None else Some(Encapsulated(s.secret.ephemeral)))))
  }

  function ClientDecrypt(s: ClientState, response: Message): (r: Outcome<Content>) {
    Open(ResponseKey(s.secret), response)
  }

  // ---------- Server ----------

  datatype ServerState = ServerState(publicKey: PublicKey, context: Option<Secret>)

  /** `GenerateRecipientContext`. */
  function RecipientContext(publicKey: PublicKey, key: EncapsulatedKey): (r: Outcome<Secret>) {
    match key
    case Encapsulated(ephemeral) => Ok(Secret(ephemeral, publicKey))
    case NotAPoint(_) => Err
  }

  /** The context with which a request is opened: an existing one, or one set up from the request. */
  function ContextFor(s: ServerState, request: Request): (r: Outcome<Secret>) {
    if s.context.Some? then Ok(s.context.value)
    else
      var key :- OkOr(request.encapsulatedKey);
      RecipientContext(s.publicKey, key)
  }

  /** The state after a request, which keeps a new context even if the request then fails to open. */
  function AfterRequest(s: ServerState, request: Request): (r: ServerState) {
    match ContextFor(s, request)
    case Ok(secret) => s.(context := Some(secret))
    case _ => s
  }

  function ServerDecrypt(s: ServerState, request: Request): (r: Outcome<Content>) {
    var secret :- ContextFor(s, request);
    Open(RequestKey(secret), request.message)
  }

  function ServerEncrypt(s: ServerState, nonce: Option<Bytes>, c: Content): (r: Outcome<Message>)
    ensures r.Ok? ==> UsesNonce(r.value, nonce)
  {
    var secret :- OkOr(s.context);
    var n :- OkOr(nonce);
    Ok(Seal(ResponseKey(secret), n, c))
  }

  // ---------- The encryptors as written ----------

  class ClientEncryptor {
    const secret: Secret
    var keyHasBeenSent: bool

    constructor (secret: Secret)
      ensures State() == ClientState(secret, false)
    {
      this.secret := secret;
      keyHasBeenSent := false;
    }

    ghost function State(): (s: ClientState)
      reads this
    {
      ClientState(secret, keyHasBeenSent)
    }

    method Encrypt(nonce: Option<Bytes>, c: Content) returns (r: Outcome<Request>)
      modifies this
      ensures match ClientEncrypt(old(State()), nonce, c)
              case Ok((s, request)) => r == Ok(request) && State() == s && UsesNonce(request.message, nonce)
              case failure => r == Err && State() == old(State())
    {
      if nonce.None? {
        return Err;
      }
      var ciphertext := Sealed(RequestKey(secret), nonce.value, c.plaintext, c.associatedData);
      var request := Request(Message(nonce.value, ciphertext, c.associatedData), None);
      if !keyHasBeenSent {
        request := request.(encapsulatedKey := Some(Encapsulated(secret.ephemeral)));
        keyHasBeenSent := true;
      }
      r := Ok(request);
    }

    /** Content comes out exactly of what was sealed with it under the response key of this client's
        secret, with the nonce and associated data of the message. */
    method Decrypt(response: Message) returns (r: Outcome<Content>)
      ensures forall content :: r == Ok(content) <==> response == Seal(ResponseKey(secret), response.nonce, content)
      ensures r == ClientDecrypt(State(), response) && !r.Panic?
    {
      r := Open(ResponseKey(secret), response);
    }
  }

  /** `Create`, with the ephemeral key the library draws; an empty or unusable server key is an error. */
  method CreateClientEncryptor(serverKey: Option<PublicKey>, ephemeral: Ephemeral) returns (r: Outcome<ClientEncryptor>)
    ensures serverKey.None? ==> r == Err
    ensures serverKey.Some? ==> r.Ok? && fresh(r.value)
                                && r.value.State() == ClientState(Secret(ephemeral, serverKey.value), false)
  {
    if serverKey.None? {
      return Err;
    }
    var client := new ClientEncryptor(Secret(ephemeral, serverKey.value));
    r := Ok(client);
  }

  class ServerEncryptor {
    const publicKey: PublicKey
    var context: Option<Secret>

    constructor (publicKey: PublicKey)
      ensures State() == ServerState(publicKey, None)
    {
      this.publicKey := publicKey;
      context := None;
    }

    ghost function State(): (s: ServerState)
      reads this
    {
      ServerState(publicKey, context)
    }

    method InitializeRecipientContexts(request: Request) returns (r: Outcome<()>)
      requires context.None?
      modifies this
      ensures match ContextFor(old(State()), request)
              case Ok(secret) => r == Ok(()) && State() == old(State()).(context := Some(secret))
              case failure => r == Err && State() == old(State())
    {
      if request.encapsulatedKey.None? {
        return Err;
      }
      var secret := RecipientContext(publicKey, request.encapsulatedKey.value);
      if secret.IsFailure() {
        return Err;
      }
      context := Some(secret.value);
      r := Ok(());
    }

    method Decrypt(request: Request) returns (r: Outcome<Content>)
      modifies this
      ensures r == ServerDecrypt(old(State()), request) && State() == AfterRequest(old(State()), request)
    {
      if context.None? {
        var status := InitializeRecipientContexts(request);
        if status.IsFailure() {
          return Err;
        }
      }
      r := Open(RequestKey(context.value), request.message);
    }

    /** An error before any request has set up a context; otherwise a message that opens to the content
        under the response key of that context and under no other key. */
    method Encrypt(nonce: Option<Bytes>, c: Content) returns (r: Outcome<Message>)
      ensures r.Ok? <==> context.Some? && nonce.Some?
      ensures r.Ok? ==> forall key :: Open(key, r.value) == if key == ResponseKey(context.value) then Ok(c) else Err
      ensures r == ServerEncrypt(State(), nonce, c) && (r.Ok? ==> UsesNonce(r.value, nonce))
    {
      if context.None? || nonce.None? {
        return Err;
      }
      r := Ok(Seal(ResponseKey(context.value), nonce.value, c));
    }
  }

  // ---------- A server facing an arbitrary network ----------

  /** The server after a sequence of incoming requests. */
  function ServerAfter(s: ServerState, requests: seq<Request>): (r: ServerState)
    decreases |requests|
  {
    if requests == [] then s else ServerAfter(AfterRequest(s, requests[0]), requests[1..])
  }

  /** The encapsulated key of the first request that carries a usable one. */
  function FirstKey(requests: seq<Request>): (r: Option<Ephemeral>) {
    if requests == [] then None
    else if requests[0].encapsulatedKey.Some? && requests[0].encapsulatedKey.value.Encapsulated? then
      Some(requests[0].encapsulatedKey.value.ephemeral)
    else FirstKey(requests[1..])
  }

  /** The context is set at most once: by the first usable key, and by nothing after it. */
  lemma {:induction false} ContextIsFirstKey(s: ServerState, requests: seq<Request>)
    ensures ServerAfter(s, requests)
         == if s.context.Some? then s
            else match FirstKey(requests)
              case Some(e) => s.(context := Some(Secret(e, s.publicKey)))
              case None => s
    decreases |requests|
  {
    if requests != [] {
      ContextIsFirstKey(AfterRequest(s, requests[0]), requests[1..]);
    }
  }

  lemma {:induction false} FirstKeyAppends(before: seq<Request>, request: Request)
    ensures FirstKey(before + [request]) == if FirstKey(before).Some? then FirstKey(before) else FirstKey([request])
    decreases |before|
  {
    if before == [] {
      assert before + [request] == [request];
    } else {
      assert (before + [request])[1..] == before[1..] + [request];
      FirstKeyAppends(before[1..], request);
    }
  }

  // ---------- Both ends over a network that loses, repeats, reorders and injects ----------

  /** Both ends, everything ever put on the wire, and what each side sent and accepted. */
  datatype System = System(
    client: ClientState, server: ServerState, requests: set<Request>, responses: set<Message>,
    clientSent: set<Content>, serverSent: set<Content>, clientGot: set<Content>, serverGot: set<Content>)

  function Initial(secret: Secret, publicKey: PublicKey): (r: System) {
    System(ClientState(secret, false), ServerState(publicKey, None), {}, {}, {}, {}, {}, {})
  }

  datatype Step =
    | ClientSends(nonce: Option<Bytes>, content: Content)
    | ServerSends(nonce: Option<Bytes>, content: Content)
    | ServerReceives(request: Request)
    | ClientReceives(response: Message)

  /** The network delivers anything it can put together, with any encapsulated key, but it cannot
      seal under the client's secret: such ciphertexts it can only copy from the wire. */
  ghost predicate Possible(y: System, step: Step) {
    match step
    case ServerReceives(request) => Known(y, request.message.ciphertext)
    case ClientReceives(response) => Known(y, response.ciphertext)
    case _ => true
  }

  ghost predicate Known(y: System, t: Ciphertext) {
    t.Sealed? && t.key.secret == y.client.secret ==>
      (exists r :: r in y.requests && r.message.ciphertext == t) || (exists m :: m in y.responses && m.ciphertext == t)
  }

  function Next(y: System, step: Step): (r: System) {
    match step
    case ClientSends(nonce, content) =>
      (match ClientEncrypt(y.client, nonce, content)
       case Ok((client, request)) =>
         y.(client := client, requests := y.requests + {request}, clientSent := y.clientSent + {content})
       case _ => y)
    case ServerSends(nonce, content) =>
      (match ServerEncrypt(y.server, nonce, content)
       case Ok(response) => y.(responses := y.responses + {response}, serverSent := y.serverSent + {content})
       case _ => y)
    case ServerReceives(request) =>
      var received := y.(server := AfterRequest(y.server, request));
      (match ServerDecrypt(y.server, request)
       case Ok(content) => received.(serverGot := y.serverGot + {content})
       case _ => received)
    case ClientReceives(response) =>
      (match ClientDecrypt(y.client, response)
       case Ok(content) => y.(clientGot := y.clientGot + {content})
       case _ => y)
  }

  /** A message built by an end that held `key`, from something that end sent. */
  predicate Genuine(m: Message, key: AeadKey, sent: set<Content>) {
    && m.ciphertext.Sealed?
    && ContentOf(m) in sent
    && m == Seal(key, m.nonce, ContentOf(m))
  }

  /** Everything on the wire is genuine, and one request, once there is any, carries the client's key. */
  ghost predicate WireInv(y: System) {
    && (forall r :: r in y.requests ==>
          && Genuine(r.message, RequestKey(y.client.secret), y.clientSent)
          && (r.encapsulatedKey.None? || r.encapsulatedKey == Some(Encapsulated(y.client.secret.ephemeral))))
    && (forall r, q :: r in y.requests && q in y.requests && r.encapsulatedKey.Some? && q.encapsulatedKey.Some? ==> r == q)
    && (y.requests != {} ==> y.client.keyHasBeenSent)
    && (y.client.keyHasBeenSent ==> exists r :: r in y.requests && r.encapsulatedKey.Some?)
    && (y.responses != {} ==> y.server.context.Some?)
    && (forall m :: m in y.responses ==> Genuine(m, ResponseKey(y.server.context.value), y.serverSent))
  }

  /** What either side accepted was sent by the other. A server that set up its context with
      someone else's key talks to that someone, and then the client accepts nothing. */
  ghost predicate SafetyInv(y: System) {
    && y.clientGot <= y.serverSent
    && (y.clientGot != {} ==> y.server.context == Some(y.client.secret))
    && (y.server.context == Some(y.client.secret) ==> y.serverGot <= y.clientSent)
    && (y.server.context.None? ==> y.serverGot == {})
  }

  lemma ClientSendsIsSafe(y: System, nonce: Bytes, content: Content)
    requires WireInv(y) && SafetyInv(y)
    ensures var z := Next(y, ClientSends(Some(nonce), content)); WireInv(z) && SafetyInv(z)
  {
    hide SafetyInv;
    var z := Next(y, ClientSends(Some(nonce), content));
    var request := ClientEncrypt(y.client, Some(nonce), content).value.1;
    assert Genuine(request.message, RequestKey(y.client.secret), z.clientSent);
    assert z.requests == y.requests + {request};
    if y.client.keyHasBeenSent {
      var r :| r in y.requests && r.encapsulatedKey.Some?;
      assert r in z.requests;
    } else {
      assert y.requests == {};
      assert request in z.requests && request.encapsulatedKey.Some?;
    }
    SendingKeepsSafety(y, z);
  }

  lemma SendingKeepsSafety(y: System, z: System)
    requires SafetyInv(y)
    requires z == y.(client := z.client, requests := z.requests, clientSent := z.clientSent)
    requires z.client.secret == y.client.secret && y.clientSent <= z.clientSent
    ensures SafetyInv(z)
  {
  }

  lemma ServerSendsIsSafe(y: System, nonce: Bytes, content: Content)
    requires WireInv(y) && SafetyInv(y)
    ensures var z := Next(y, ServerSends(Some(nonce), content)); WireInv(z) && SafetyInv(z)
  {
  }

  lemma ServerReceivesIsSafe(y: System, request: Request)
    requires WireInv(y) && SafetyInv(y) && Possible(y, ServerReceives(request))
    ensures var z := Next(y, ServerReceives(request)); WireInv(z) && SafetyInv(z)
  {
  }

  lemma ClientReceivesIsSafe(y: System, response: Message)
    requires WireInv(y) && SafetyInv(y) && Possible(y, ClientReceives(response))
    ensures var z := Next(y, ClientReceives(response)); WireInv(z) && SafetyInv(z)
  {
  }

  lemma StepIsSafe(y: System, step: Step)
    requires WireInv(y) && SafetyInv(y) && Possible(y, step)
    ensures WireInv(Next(y, step)) && SafetyInv(Next(y, step))
  {
    hide WireInv, SafetyInv, Possible;
    match step
    case ClientSends(nonce, content) => if nonce.Some? { ClientSendsIsSafe(y, nonce.value, content); }
    case ServerSends(nonce, content) => if nonce.Some? { ServerSendsIsSafe(y, nonce.value, content); }
    case ServerReceives(request) => ServerReceivesIsSafe(y, request);
    case ClientReceives(response) => ClientReceivesIsSafe(y, response);
  }

  function Run(y: System, steps: seq<Step>): (r: System)
    decreases |steps|
  {
    if steps == [] then y else Run(Next(y, steps[0]), steps[1..])
  }

  ghost predicate PossibleRun(y: System, steps: seq<Step>)
    decreases |steps|
  {
    steps != [] ==> Possible(y, steps[0]) && PossibleRun(Next(y, steps[0]), steps[1..])
  }

  /** The requests the server was handed, in order. */
  function Received(steps: seq<Step>): (r: seq<Request>) {
    if steps == [] then []
    else (if steps[0].ServerReceives? then [steps[0].request] else []) + Received(steps[1..])
  }

  lemma {:induction false} RunIsSafe(y: System, steps: seq<Step>)
    requires WireInv(y) && SafetyInv(y) && PossibleRun(y, steps)
    ensures WireInv(Run(y, steps)) && SafetyInv(Run(y, steps))
    decreases |steps|
  {
    hide WireInv, SafetyInv, Possible, Next;
    if steps != [] {
      StepIsSafe(y, steps[0]);
      RunIsSafe(Next(y, steps[0]), steps[1..]);
    }
  }

  /** Sending and the client's receiving leave the server alone, and no step changes the secret. */
  lemma NextOfServer(y: System, step: Step)
    ensures Next(y, step).server == if step.ServerReceives? then AfterRequest(y.server, step.request) else y.server
    ensures Next(y, step).client.secret == y.client.secret
  {
  }

  lemma {:induction false} RunOfServer(y: System, steps: seq<Step>)
    ensures Run(y, steps).server == ServerAfter(y.server, Received(steps))
    ensures Run(y, steps).client.secret == y.client.secret
    decreases |steps|
  {
    hide Next, AfterRequest;
    if steps != [] {
      NextOfServer(y, steps[0]);
      RunOfServer(Next(y, steps[0]), steps[1..]);
      if steps[0].ServerReceives? {
        DropFirst(steps[0].request, Received(steps[1..]));
      } else {
        assert Received(steps) == Received(steps[1..]);
      }
    }
  }

  /** Session safety: over every run of a fresh pair against such a network, whatever the client
      accepts the server sent to it, and whatever a server in session with the client accepts the
      client sent. The context, once set, is what the first usable key made it. */
  lemma SessionSafety(secret: Secret, publicKey: PublicKey, steps: seq<Step>)
    requires PossibleRun(Initial(secret, publicKey), steps)
    ensures var y := Run(Initial(secret, publicKey), steps);
      && y.clientGot <= y.serverSent
      && (y.clientGot != {} ==> y.server.context == Some(secret))
      && (y.server.context == Some(secret) ==> y.serverGot <= y.clientSent)
      && y.server.context == (match FirstKey(Received(steps))
                              case Some(e) => Some(Secret(e, publicKey))
                              case None => None)
  {
    RunIsSafe(Initial(secret, publicKey), steps);
    RunOfServer(Initial(secret, publicKey), steps);
    ContextIsFirstKey(ServerState(publicKey, None), Received(steps));
  }

  /** Delivery: after every run, each request the client ever put on the wire, delivered now, for the
      first time or again, decrypts to exactly what the client sent if and only if the client
      encrypts to this server and its key is the first usable one the server was handed, this
      request included; otherwise it is rejected. */
  lemma RequestDelivery(secret: Secret, publicKey: PublicKey, steps: seq<Step>, request: Request)
    requires PossibleRun(Initial(secret, publicKey), steps)
    requires request in Run(Initial(secret, publicKey), steps).requests
    ensures var y := Run(Initial(secret, publicKey), steps);
      && request.message.ciphertext.Sealed?
      && ContentOf(request.message) in y.clientSent
      && ServerDecrypt(y.server, request)
         == if secret.recipient == publicKey && FirstKey(Received(steps) + [request]) == Some(secret.ephemeral)
            then Ok(ContentOf(request.message)) else Err
  {
    RunIsSafe(Initial(secret, publicKey), steps);
    RunOfServer(Initial(secret, publicKey), steps);
    ContextIsFirstKey(ServerState(publicKey, None), Received(steps));
    FirstKeyAppends(Received(steps), request);
  }

  /** The same for responses: the client decrypts each exactly when the server is in session with it. */
  lemma ResponseDelivery(secret: Secret, publicKey: PublicKey, steps: seq<Step>, response: Message)
    requires PossibleRun(Initial(secret, publicKey), steps)
    requires response in Run(Initial(secret, publicKey), steps).responses
    ensures var y := Run(Initial(secret, publicKey), steps);
      && response.ciphertext.Sealed?
      && ContentOf(response) in y.serverSent
      && ClientDecrypt(y.client, response)
         == if secret.recipient == publicKey && FirstKey(Received(steps)) == Some(secret.ephemeral)
            then Ok(ContentOf(response)) else Err
  {
    RunIsSafe(Initial(secret, publicKey), steps);
    RunOfServer(Initial(secret, publicKey), steps);
    ContextIsFirstKey(ServerState(publicKey, None), Received(steps));
  }

  /** When the client's own first request is the first thing a fresh server is handed, every request
      of the session decrypts, in any order, whatever is lost, repeated or injected in between. */
  lemma FirstRequestOpensSession(secret: Secret, steps: seq<Step>, request: Request)
    requires PossibleRun(Initial(secret, secret.recipient), steps)
    requires Received(steps) != [] && Received(steps)[0].encapsulatedKey == Some(Encapsulated(secret.ephemeral))
    requires request in Run(Initial(secret, secret.recipient), steps).requests
    ensures request.message.ciphertext.Sealed?
    ensures ServerDecrypt(Run(Initial(secret, secret.recipient), steps).server, request)
         == Ok(ContentOf(request.message))
  {
    RequestDelivery(secret, secret.recipient, steps, request);
  }
}
