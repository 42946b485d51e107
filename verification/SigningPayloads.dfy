/** The canonical texts that requests, responses, socket upgrades and socket actions are signed over. */
module SigningPayloads {
  import opened Text

  /** What a signature covers, with `null` or missing fields as `None`. */
  datatype Message =
    | HttpRequest(method_: string, path: string, query: string, bodySha256: string, version: Option<string>,
                  installationId: string, clientId: string, keyId: string, requestId: Option<string>,
                  idempotencyKey: Option<string>, tokenId: Option<string>, timestamp: string, nonce: string)
    | HttpResponse(method_: string, path: string, query: string, status: int, bodySha256: string, version: Option<string>,
                   installationId: string, clientId: string, keyId: string, requestId: Option<string>,
                   tokenId: Option<string>, timestamp: string, nonce: string)
    | SocketUpgrade(accountId: string, path: string, query: string, socketVersion: string, installationId: string,
                    clientId: string, tokenId: Option<string>, keyId: string, requestId: Option<string>,
                    timestamp: string, nonce: string)
    | SocketAction(sessionNonce: string, sequence: int, installationId: string, clientId: string, payloadSha256: string,
                   keyId: string, requestId: Option<string>, timestamp: string, nonce: string)

  function Scope(m: Message): string
  {
    match m
    case HttpRequest(_, _, _, _, _, _, _, _, _, _, _, _, _) => "interbase-remote-runtime-" + "http-signature-v1"
    case HttpResponse(_, _, _, _, _, _, _, _, _, _, _, _, _) => "interbase-runtime-" + "http-response-signature-v1"
    case SocketUpgrade(_, _, _, _, _, _, _, _, _, _, _) => "interbase-remote-runtime-" + "websocket-upgrade-" + "signature-v1"
    case SocketAction(_, _, _, _, _, _, _, _, _) => "interbase-remote-runtime-" + "websocket-action-" + "signature-v1"
  }

  function OrEmpty(o: Option<string>): string { if o.None? then "" else o.value }

  /** A missing version prints as JavaScript prints `undefined`. */
  function VersionText(o: Option<string>): string { if o.None? then "undefined" else o.value }

  /** The labels of a message's lines, as they are printed. */
  function Labels(m: Message): seq<string>
  {
    match m
    case HttpRequest(_, _, _, _, _, _, _, _, _, _, _, _, _) =>
      ["method:", "path:", "query:", "bodySha256:", "remoteRuntimeHttpVersion:", "runtimeInstallationId:",
       "trustedRuntimeClientId:", "keyId:", "requestId:", "idempotencyKey:", "localRuntimeAccessTokenId:",
       "timestamp:", "nonce:"]
    case HttpResponse(_, _, _, _, _, _, _, _, _, _, _, _, _) =>
      ["method:", "path:", "query:", "status:", "bodySha256:", "remoteRuntimeHttpVersion:", "runtimeInstallationId:",
       "trustedRuntimeClientId:", "keyId:", "requestId:", "localRuntimeAccessTokenId:", "timestamp:", "nonce:"]
    case SocketUpgrade(_, _, _, _, _, _, _, _, _, _, _) =>
      ["accountId:", "path:", "query:", "webSocketVersion:", "runtimeInstallationId:", "trustedRuntimeClientId:",
       "localRuntimeAccessTokenId:", "keyId:", "requestId:", "timestamp:", "nonce:"]
    case SocketAction(_, _, _, _, _, _, _, _, _) =>
      ["sessionNonce:", "sequence:", "runtimeInstallationId:", "trustedRuntimeClientId:", "payloadSha256:", "keyId:",
       "requestId:", "timestamp:", "nonce:"]
  }

  /** The values printed after the labels; `upper` is `toUpperCase`. */
  function Values(m: Message, upper: string -> string): (values: seq<string>)
    ensures |values| == |Labels(m)|
  {
    match m
    case HttpRequest(meth, path, query, body, version, installation, client, key, request, idempotency, token, timestamp, nonce) =>
      [upper(meth), path, query, body, VersionText(version), installation, client, key, OrEmpty(request),
       OrEmpty(idempotency), OrEmpty(token), timestamp, nonce]
    case HttpResponse(meth, path, query, status, body, version, installation, client, key, request, token, timestamp, nonce) =>
      [upper(meth), path, query, Numeral(status), body, VersionText(version), installation, client, key,
       OrEmpty(request), OrEmpty(token), timestamp, nonce]
    case SocketUpgrade(account, path, query, version, installation, client, token, key, request, timestamp, nonce) =>
      [account, path, query, version, installation, client, OrEmpty(token), key, OrEmpty(request), timestamp, nonce]
    case SocketAction(session, sequence, installation, client, payload, key, request, timestamp, nonce) =>
      [session, Numeral(sequence), installation, client, payload, key, OrEmpty(request), timestamp, nonce]
  }

  function LinesOf(labels: seq<string>, values: seq<string>): (lines: seq<string>)
    requires |labels| == |values|
    ensures |lines| == |labels|
  {
    if labels == [] then [] else [labels[0] + values[0]] + LinesOf(labels[1..], values[1..])
  }

  function Payload(m: Message, upper: string -> string): string
  {
    Join([Scope(m)] + LinesOf(Labels(m), Values(m, upper)), '\n')
  }

  // ---------------------------------------------------------------- what a payload determines

  predicate OneLine(s: string) { '\n' !in s }

  /** No printed value of the message holds a line break. */
  predicate OneLineFields(m: Message, upper: string -> string)
  {
    forall v :: v in Values(m, upper) ==> OneLine(v)
  }

  /** The message up to the method's case, absent against empty, and an absent version against the text `undefined`. */
  function Normal(m: Message, upper: string -> string): Message
  {
    match m
    case HttpRequest(meth, path, query, body, version, installation, client, key, request, idempotency, token, timestamp, nonce) =>
      HttpRequest(upper(meth), path, query, body, Some(VersionText(version)), installation, client, key,
                  Some(OrEmpty(request)), Some(OrEmpty(idempotency)), Some(OrEmpty(token)), timestamp, nonce)
    case HttpResponse(meth, path, query, status, body, version, installation, client, key, request, token, timestamp, nonce) =>
      HttpResponse(upper(meth), path, query, status, body, Some(VersionText(version)), installation, client, key,
                   Some(OrEmpty(request)), Some(OrEmpty(token)), timestamp, nonce)
    case SocketUpgrade(account, path, query, version, installation, client, token, key, request, timestamp, nonce) =>
      SocketUpgrade(account, path, query, version, installation, client, Some(OrEmpty(token)), key, Some(OrEmpty(request)),
                    timestamp, nonce)
    case SocketAction(session, sequence, installation, client, payload, key, request, timestamp, nonce) =>
      SocketAction(session, sequence, installation, client, payload, key, Some(OrEmpty(request)), timestamp, nonce)
  }

  predicate SameKind(a: Message, b: Message)
  {
    (a.HttpRequest? && b.HttpRequest?) || (a.HttpResponse? && b.HttpResponse?) ||
    (a.SocketUpgrade? && b.SocketUpgrade?) || (a.SocketAction? && b.SocketAction?)
  }

  lemma ScopeTellsKind(a: Message, b: Message)
    requires Scope(a) == Scope(b)
    ensures SameKind(a, b)
  {
    assert |Scope(a)| == |Scope(b)| && Scope(a)[11] == Scope(b)[11];
  }

  lemma {:induction false} LinesAreClean(labels: seq<string>, values: seq<string>)
    requires |labels| == |values| && (forall l :: l in labels ==> OneLine(l)) && forall v :: v in values ==> OneLine(v)
    ensures forall line :: line in LinesOf(labels, values) ==> OneLine(line)
  {
    if labels != [] {
      LinesAreClean(labels[1..], values[1..]);
      assert OneLine(labels[0]);
      assert OneLine(values[0]);
    }
  }

  lemma HttpLabelsAreClean(tag: string)
    requires tag in ["method:", "path:", "query:", "status:", "bodySha256:", "remoteRuntimeHttpVersion:", "idempotencyKey:"]
    ensures OneLine(tag)
  {
    assert OneLine("method:") && OneLine("path:") && OneLine("query:") && OneLine("status:") && OneLine("bodySha256:");
    assert OneLine("remoteRuntimeHttpVersion:") && OneLine("idempotencyKey:");
  }

  lemma SocketLabelsAreClean(tag: string)
    requires tag in ["accountId:", "path:", "query:", "webSocketVersion:", "sessionNonce:", "sequence:", "payloadSha256:"]
    ensures OneLine(tag)
  {
    assert OneLine("accountId:") && OneLine("path:") && OneLine("query:") && OneLine("webSocketVersion:");
    assert OneLine("sessionNonce:") && OneLine("sequence:") && OneLine("payloadSha256:");
  }

  lemma SharedLabelsAreClean(tag: string)
    requires tag in ["runtimeInstallationId:", "trustedRuntimeClientId:", "keyId:", "requestId:", "localRuntimeAccessTokenId:",
                        "timestamp:", "nonce:"]
    ensures OneLine(tag)
  {
    assert OneLine("runtimeInstallationId:") && OneLine("trustedRuntimeClientId:") && OneLine("keyId:") && OneLine("requestId:");
    assert OneLine("localRuntimeAccessTokenId:") && OneLine("timestamp:") && OneLine("nonce:");
  }

  lemma LabelsAreClean(m: Message)
    ensures forall l :: l in Labels(m) ==> OneLine(l)
  {
    var http := ["method:", "path:", "query:", "status:", "bodySha256:", "remoteRuntimeHttpVersion:", "idempotencyKey:"];
    var socket := ["accountId:", "path:", "query:", "webSocketVersion:", "sessionNonce:", "sequence:", "payloadSha256:"];
    forall l | l in Labels(m) ensures OneLine(l) {
      if l in http {
        HttpLabelsAreClean(l);
      } else if l in socket {
        SocketLabelsAreClean(l);
      } else {
        SharedLabelsAreClean(l);
      }
    }
  }

  lemma OneLineConcat(a: string, b: string)
    ensures OneLine(a + b) <==> OneLine(a) && OneLine(b)
  {
  }

  lemma ScopeIsClean(m: Message)
    ensures OneLine(Scope(m))
  {
    if m.HttpRequest? {
      OneLineConcat("interbase-remote-runtime-", "http-signature-v1");
    } else if m.HttpResponse? {
      OneLineConcat("interbase-runtime-", "http-response-signature-v1");
    } else if m.SocketUpgrade? {
      OneLineConcat("interbase-remote-runtime-", "websocket-upgrade-");
      OneLineConcat("interbase-remote-runtime-" + "websocket-upgrade-", "signature-v1");
    } else {
      OneLineConcat("interbase-remote-runtime-", "websocket-action-");
      OneLineConcat("interbase-remote-runtime-" + "websocket-action-", "signature-v1");
    }
  }

  lemma SplitHeaded(scope: string, lines: seq<string>)
    requires OneLine(scope) && forall line :: line in lines ==> OneLine(line)
    ensures Split(Join([scope] + lines, '\n'), '\n') == [scope] + lines
  {
    SplitJoin([scope] + lines, '\n');
  }

  /** Splitting a payload at its line breaks gives the scope and the field lines. */
  lemma PayloadLines(m: Message, upper: string -> string)
    requires OneLineFields(m, upper)
    ensures Split(Payload(m, upper), '\n') == [Scope(m)] + LinesOf(Labels(m), Values(m, upper))
  {
    LabelsAreClean(m);
    LinesAreClean(Labels(m), Values(m, upper));
    ScopeIsClean(m);
    SplitHeaded(Scope(m), LinesOf(Labels(m), Values(m, upper)));
  }

  /** Payloads of different builders are never equal, whatever the fields hold: the scope is the first line. */
  lemma PayloadTellsKind(a: Message, b: Message, upper: string -> string)
    requires Payload(a, upper) == Payload(b, upper)
    ensures SameKind(a, b)
  {
    FirstLineIsScope(a, upper);
    FirstLineIsScope(b, upper);
    ScopeTellsKind(a, b);
  }

  lemma FirstLineIsScope(m: Message, upper: string -> string)
    ensures Split(Payload(m, upper), '\n')[0] == Scope(m)
  {
    ScopeIsClean(m);
    HeadedSplit(Scope(m), LinesOf(Labels(m), Values(m, upper)));
  }

  lemma HeadedSplit(scope: string, lines: seq<string>)
    requires OneLine(scope) && lines != []
    ensures Split(Join([scope] + lines, '\n'), '\n')[0] == scope
  {
    assert ([scope] + lines)[1..] == lines;
    SplitAtSeparator(scope, Join(lines, '\n'), '\n');
  }

  lemma {:induction false} SameLinesSameValues(labels: seq<string>, v: seq<string>, w: seq<string>)
    requires |v| == |w| == |labels| && LinesOf(labels, v) == LinesOf(labels, w)
    ensures v == w
  {
    if labels != [] {
      var a, b := LinesOf(labels, v), LinesOf(labels, w);
      assert a[0] == b[0] && a[1..] == b[1..];
      var n := |labels[0]|;
      assert a[0][n..] == v[0] && b[0][n..] == w[0];
      SameLinesSameValues(labels[1..], v[1..], w[1..]);
      assert v == [v[0]] + v[1..] && w == [w[0]] + w[1..];
    }
  }

  lemma SameValuesSameMessage(a: Message, b: Message, upper: string -> string)
    requires SameKind(a, b) && Values(a, upper) == Values(b, upper)
    ensures Normal(a, upper) == Normal(b, upper)
  {
    var v, w := Values(a, upper), Values(b, upper);
    assert forall i :: 0 <= i < |v| ==> v[i] == w[i];
    if a.HttpResponse? {
      assert Numeral(a.status) == v[3];
      NumeralIsInjective(a.status, b.status);
    } else if a.SocketAction? {
      assert Numeral(a.sequence) == v[1];
      NumeralIsInjective(a.sequence, b.sequence);
    }
  }

  lemma ScopeAndLines(s: string, a: seq<string>, t: string, b: seq<string>)
    requires [s] + a == [t] + b
    ensures s == t && a == b
  {
    assert ([s] + a)[0] == ([t] + b)[0] && ([s] + a)[1..] == ([t] + b)[1..];
  }

  lemma SamePayloadSameValues(a: Message, b: Message, upper: string -> string)
    requires OneLineFields(a, upper) && OneLineFields(b, upper) && Payload(a, upper) == Payload(b, upper)
    ensures SameKind(a, b) && Values(a, upper) == Values(b, upper)
  {
    PayloadLines(a, upper);
    PayloadLines(b, upper);
    var v, w := Values(a, upper), Values(b, upper);
    ScopeAndLines(Scope(a), LinesOf(Labels(a), v), Scope(b), LinesOf(Labels(b), w));
    ScopeTellsKind(a, b);
    assert Labels(a) == Labels(b);
    SameLinesSameValues(Labels(a), v, w);
  }

  lemma SameMessageSamePayload(a: Message, b: Message, upper: string -> string)
    requires Normal(a, upper) == Normal(b, upper)
    ensures Payload(a, upper) == Payload(b, upper)
  {
    assert Scope(a) == Scope(b) && Labels(a) == Labels(b);
    assert Values(a, upper) == Values(b, upper);
  }

  /**
   * Two messages without line breaks have the same payload exactly when they are of the same kind and agree in
   * every field, up to the method's case, absent against empty, and an absent version against the text `undefined`.
   */
  lemma PayloadIsInjective(a: Message, b: Message, upper: string -> string)
    requires OneLineFields(a, upper) && OneLineFields(b, upper)
    ensures Payload(a, upper) == Payload(b, upper) <==> Normal(a, upper) == Normal(b, upper)
  {
    if Payload(a, upper) == Payload(b, upper) {
      SamePayloadSameValues(a, b, upper);
      SameValuesSameMessage(a, b, upper);
    }
    if Normal(a, upper) == Normal(b, upper) {
      SameMessageSamePayload(a, b, upper);
    }
  }

  // ---------------------------------------------------------------- the lines of each builder

  /** A printed label and what follows it on the line. */
  datatype Row = Row(text: string, value: string)

  /** One line per row. */
  function Printed(rows: seq<Row>): (lines: seq<string>)
    ensures |lines| == |rows| && forall i :: 0 <= i < |rows| ==> lines[i] == rows[i].text + rows[i].value
  {
    if rows == [] then [] else [rows[0].text + rows[0].value] + Printed(rows[1..])
  }

  ghost predicate SameRows(rows: seq<Row>, labels: seq<string>, values: seq<string>)
  {
    |rows| == |labels| == |values| && forall i :: 0 <= i < |rows| ==> rows[i] == Row(labels[i], values[i])
  }

  lemma {:induction false} RowsAreLines(rows: seq<Row>, labels: seq<string>, values: seq<string>)
    requires SameRows(rows, labels, values)
    ensures Printed(rows) == LinesOf(labels, values)
  {
    if rows != [] {
      RowsAreLines(rows[1..], labels[1..], values[1..]);
    }
  }

  lemma PayloadRows(m: Message, upper: string -> string, rows: seq<Row>)
    requires SameRows(rows, Labels(m), Values(m, upper))
    ensures Payload(m, upper) == Join([Scope(m)] + Printed(rows), '\n')
    ensures OneLineFields(m, upper) ==> Split(Payload(m, upper), '\n') == [Scope(m)] + Printed(rows)
  {
    RowsAreLines(rows, Labels(m), Values(m, upper));
    if OneLineFields(m, upper) {
      PayloadLines(m, upper);
    }
  }

  /** The text of a request's payload, line by line. */
  lemma RequestText(m: Message, upper: string -> string)
    requires m.HttpRequest?
    ensures var lines := ["interbase-remote-runtime-" + "http-signature-v1"] + Printed(
        [Row("method:", upper(m.method_)), Row("path:", m.path), Row("query:", m.query),
         Row("bodySha256:", m.bodySha256),
         Row("remoteRuntimeHttpVersion:", (match m.version case None => "undefined" case Some(v) => v)),
         Row("runtimeInstallationId:", m.installationId), Row("trustedRuntimeClientId:", m.clientId),
         Row("keyId:", m.keyId), Row("requestId:", (match m.requestId case None => "" case Some(v) => v)),
         Row("idempotencyKey:", (match m.idempotencyKey case None => "" case Some(v) => v)),
         Row("localRuntimeAccessTokenId:", (match m.tokenId case None => "" case Some(v) => v)),
         Row("timestamp:", m.timestamp), Row("nonce:", m.nonce)]);
      Payload(m, upper) == Join(lines, '\n') && (OneLineFields(m, upper) ==> Split(Payload(m, upper), '\n') == lines)
  {
    var rows :=
        [Row("method:", upper(m.method_)), Row("path:", m.path), Row("query:", m.query),
         Row("bodySha256:", m.bodySha256),
         Row("remoteRuntimeHttpVersion:", (match m.version case None => "undefined" case Some(v) => v)),
         Row("runtimeInstallationId:", m.installationId), Row("trustedRuntimeClientId:", m.clientId),
         Row("keyId:", m.keyId), Row("requestId:", (match m.requestId case None => "" case Some(v) => v)),
         Row("idempotencyKey:", (match m.idempotencyKey case None => "" case Some(v) => v)),
         Row("localRuntimeAccessTokenId:", (match m.tokenId case None => "" case Some(v) => v)),
         Row("timestamp:", m.timestamp), Row("nonce:", m.nonce)];
    PayloadRows(m, upper, rows);
  }

  /** The text of a response's payload, line by line. */
  lemma ResponseText(m: Message, upper: string -> string)
    requires m.HttpResponse?
    ensures var lines := ["interbase-runtime-" + "http-response-signature-v1"] + Printed(
        [Row("method:", upper(m.method_)), Row("path:", m.path), Row("query:", m.query),
         Row("status:", Numeral(m.status)), Row("bodySha256:", m.bodySha256),
         Row("remoteRuntimeHttpVersion:", (match m.version case None => "undefined" case Some(v) => v)),
         Row("runtimeInstallationId:", m.installationId), Row("trustedRuntimeClientId:", m.clientId),
         Row("keyId:", m.keyId), Row("requestId:", (match m.requestId case None => "" case Some(v) => v)),
         Row("localRuntimeAccessTokenId:", (match m.tokenId case None => "" case Some(v) => v)),
         Row("timestamp:", m.timestamp), Row("nonce:", m.nonce)]);
      Payload(m, upper) == Join(lines, '\n') && (OneLineFields(m, upper) ==> Split(Payload(m, upper), '\n') == lines)
  {
    var rows :=
        [Row("method:", upper(m.method_)), Row("path:", m.path), Row("query:", m.query),
         Row("status:", Numeral(m.status)), Row("bodySha256:", m.bodySha256),
         Row("remoteRuntimeHttpVersion:", (match m.version case None => "undefined" case Some(v) => v)),
         Row("runtimeInstallationId:", m.installationId), Row("trustedRuntimeClientId:", m.clientId),
         Row("keyId:", m.keyId), Row("requestId:", (match m.requestId case None => "" case Some(v) => v)),
         Row("localRuntimeAccessTokenId:", (match m.tokenId case None => "" case Some(v) => v)),
         Row("timestamp:", m.timestamp), Row("nonce:", m.nonce)];
    PayloadRows(m, upper, rows);
  }

  /** The text of an upgrade's payload, line by line. */
  lemma UpgradeText(m: Message, upper: string -> string)
    requires m.SocketUpgrade?
    ensures var lines := ["interbase-remote-runtime-" + "websocket-upgrade-" + "signature-v1"] + Printed(
        [Row("accountId:", m.accountId), Row("path:", m.path), Row("query:", m.query),
         Row("webSocketVersion:", m.socketVersion), Row("runtimeInstallationId:", m.installationId),
         Row("trustedRuntimeClientId:", m.clientId),
         Row("localRuntimeAccessTokenId:", (match m.tokenId case None => "" case Some(v) => v)),
         Row("keyId:", m.keyId), Row("requestId:", (match m.requestId case None => "" case Some(v) => v)),
         Row("timestamp:", m.timestamp), Row("nonce:", m.nonce)]);
      Payload(m, upper) == Join(lines, '\n') && (OneLineFields(m, upper) ==> Split(Payload(m, upper), '\n') == lines)
  {
    var rows :=
        [Row("accountId:", m.accountId), Row("path:", m.path), Row("query:", m.query),
         Row("webSocketVersion:", m.socketVersion), Row("runtimeInstallationId:", m.installationId),
         Row("trustedRuntimeClientId:", m.clientId),
         Row("localRuntimeAccessTokenId:", (match m.tokenId case None => "" case Some(v) => v)),
         Row("keyId:", m.keyId), Row("requestId:", (match m.requestId case None => "" case Some(v) => v)),
         Row("timestamp:", m.timestamp), Row("nonce:", m.nonce)];
    PayloadRows(m, upper, rows);
  }

  /** The text of an action's payload, line by line. */
  lemma ActionText(m: Message, upper: string -> string)
    requires m.SocketAction?
    ensures var lines := ["interbase-remote-runtime-" + "websocket-action-" + "signature-v1"] + Printed(
        [Row("sessionNonce:", m.sessionNonce), Row("sequence:", Numeral(m.sequence)),
         Row("runtimeInstallationId:", m.installationId), Row("trustedRuntimeClientId:", m.clientId),
         Row("payloadSha256:", m.payloadSha256), Row("keyId:", m.keyId),
         Row("requestId:", (match m.requestId case None => "" case Some(v) => v)), Row("timestamp:", m.timestamp),
         Row("nonce:", m.nonce)]);
      Payload(m, upper) == Join(lines, '\n') && (OneLineFields(m, upper) ==> Split(Payload(m, upper), '\n') == lines)
  {
    var rows :=
        [Row("sessionNonce:", m.sessionNonce), Row("sequence:", Numeral(m.sequence)),
         Row("runtimeInstallationId:", m.installationId), Row("trustedRuntimeClientId:", m.clientId),
         Row("payloadSha256:", m.payloadSha256), Row("keyId:", m.keyId),
         Row("requestId:", (match m.requestId case None => "" case Some(v) => v)), Row("timestamp:", m.timestamp),
         Row("nonce:", m.nonce)];
    PayloadRows(m, upper, rows);
  }
}
