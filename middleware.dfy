/** `Neo4jLoggerMiddleware`: after a view has produced its response, a log
    record that a view left in the session under `neo4j_log` is consumed once,
    and for an HTML page a script announcing the graph operation is spliced in
    just before the first `</body>`. */
module Middleware {
  import opened Wrappers
  import opened Text

  /** The session key the log record is stored under. */
  const LogKey := "neo4j_log"

  const BodyClose := "</body>"


  /** What `json.loads` makes of the stored record: it raises, it yields
      something other than an object (subscripting which raises), or it yields
      an object whose values are shown as text. */
  datatype LogRecord = Undecodable | NonObject | Object(fields: map<string, string>)

  /** The session as a dictionary of serialised values, with the flag that
      makes Django save it. */
  class Session {
    var data: map<string, string>
    var modified: bool
  }

  /** The parts of the response the middleware looks at. `contentType` stands
      for `response.get('Content-Type', '')`, so a missing header is empty;
      `content` is the body already decoded as text. */
  class Response {
    var content: string
    var contentType: string
  }

  /** `'text/html' in response.get('Content-Type', '')`. */
  predicate IsHtml(contentType: string)
    ensures IsHtml(contentType) <==> exists i :: OccursAt(contentType, "text/html", i)
  {
    Contains(contentType, "text/html")
  }

  /** The record can be rendered into the script: it is an object holding
      both `operation` and `timestamp`. */
  predicate HasLogFields(log: LogRecord) {
    log.Object? && "operation" in log.fields && "timestamp" in log.fields
  }

  // ---------------------------------------------------------------------
  // The script: an f-string, written as its pieces of literal text and the
  // places where the record's fields are substituted.

  datatype Piece = Text(text: string) | OperationField | TimestampField

  /** A run of `n` blanks, the indentation of the script's lines. */
  function Spaces(n: nat): (s: string)
    ensures |s| == n && forall i :: 0 <= i < n ==> s[i] == ' '
  {
    seq(n, _ => ' ')
  }

  /** The f-string of `__call__`, with `{{` and `}}` already read as braces. */
  const ScriptTemplate: seq<Piece> := [
    Text("\n"
      + Spaces(20) + "<script>\n"
      + Spaces(20) + "(function() {\n"
      + Spaces(24) + "console.log(\"Neo4j Operation: "),
    OperationField,
    Text(" completed ["),
    TimestampField,
    Text("]\");\n"
      + Spaces(24) + "\n"
      + Spaces(24) + "// Dispatch event for the logger\n"
      + Spaces(24) + "if (document.readyState === 'complete' || document.readyState === 'interactive') {\n"
      + Spaces(28) + "const neo4jEvent = new CustomEvent('neo4j-operation', {\n"
      + Spaces(32) + "detail: {\n"
      + Spaces(36) + "operation: \""),
    OperationField,
    Text("\",\n"
      + Spaces(36) + "timestamp: \""),
    TimestampField,
    Text("\"\n"
      + Spaces(32) + "}\n"
      + Spaces(28) + "});\n"
      + Spaces(28) + "document.dispatchEvent(neo4jEvent);\n"
      + Spaces(24) + "} else {\n"
      + Spaces(28) + "document.addEventListener('DOMContentLoaded', function() {\n"
      + Spaces(32) + "const neo4jEvent = new CustomEvent('neo4j-operation', {\n"
      + Spaces(36) + "detail: {\n"
      + Spaces(40) + "operation: \""),
    OperationField,
    Text("\",\n"
      + Spaces(40) + "timestamp: \""),
    TimestampField,
    Text("\"\n"
      + Spaces(36) + "}\n"
      + Spaces(32) + "});\n"
      + Spaces(32) + "document.dispatchEvent(neo4jEvent);\n"
      + Spaces(28) + "});\n"
      + Spaces(24) + "}\n"
      + Spaces(20) + "})();\n"
      + Spaces(20) + "</script>\n"
      + Spaces(20))
  ]

  function RenderPiece(p: Piece, operation: string, timestamp: string): string {
    match p
    case Text(t) => t
    case OperationField => operation
    case TimestampField => timestamp
  }

  /** Formatting an f-string: its pieces, each field replaced by its value. */
  function Render(t: seq<Piece>, operation: string, timestamp: string): string
    decreases |t|
  {
    if |t| == 0 then ""
    else Render(t[..|t| - 1], operation, timestamp) + RenderPiece(t[|t| - 1], operation, timestamp)
  }

  /** Formatting distributes over the pieces of a template. */
  lemma {:induction false} RenderAppend(t: seq<Piece>, u: seq<Piece>, operation: string, timestamp: string)
    ensures Render(t + u, operation, timestamp) == Render(t, operation, timestamp) + Render(u, operation, timestamp)
    decreases |u|
  {
    if |u| == 0 {
      assert t + u == t;
    } else {
      var w, last := u[..|u| - 1], u[|u| - 1];
      assert (t + u)[..|t + u| - 1] == t + w;
      assert (t + u)[|t + u| - 1] == last;
      RenderAppend(t, w, operation, timestamp);
      assert Render(t + u, operation, timestamp)
          == Render(t + w, operation, timestamp) + RenderPiece(last, operation, timestamp);
      assert Render(u, operation, timestamp) == Render(w, operation, timestamp) + RenderPiece(last, operation, timestamp);
    }
  }

  /** Piece `k` of a template is rendered right after the first `k` pieces. */
  lemma PieceRendered(t: seq<Piece>, k: int, operation: string, timestamp: string)
    requires 0 <= k < |t|
    ensures OccursAt(Render(t, operation, timestamp), RenderPiece(t[k], operation, timestamp),
                     |Render(t[..k], operation, timestamp)|)
  {
    var before, piece, after := Render(t[..k], operation, timestamp),
      RenderPiece(t[k], operation, timestamp), Render(t[k + 1..], operation, timestamp);
    assert t == t[..k + 1] + t[k + 1..];
    RenderAppend(t[..k + 1], t[k + 1..], operation, timestamp);
    assert t[..k + 1][..k] == t[..k];
    assert Render(t, operation, timestamp) == before + piece + after;
    assert (before + piece + after)[|before|..|before| + |piece|] == piece;
  }

  /** The injected script for a record. */
  function Script(operation: string, timestamp: string): string {
    Render(ScriptTemplate, operation, timestamp)
  }

  /** The script carries the record's operation where the template has an
      operation field (the console line and the detail of either event) and
      its timestamp where the template has a timestamp field. */
  lemma ScriptCarriesLog(operation: string, timestamp: string, k: int)
    requires 0 <= k < |ScriptTemplate|
    ensures ScriptTemplate[k] == OperationField ==>
      OccursAt(Script(operation, timestamp), operation, |Render(ScriptTemplate[..k], operation, timestamp)|)
    ensures ScriptTemplate[k] == TimestampField ==>
      OccursAt(Script(operation, timestamp), timestamp, |Render(ScriptTemplate[..k], operation, timestamp)|)
  {
    PieceRendered(ScriptTemplate, k, operation, timestamp);
  }

  /** The template opens with the console call and fills the operation into
      it, into the detail of the immediate event and into that of the
      deferred one; the timestamp follows each. */
  lemma ScriptFields()
    ensures |ScriptTemplate| == 13
    ensures ScriptTemplate[1] == ScriptTemplate[5] == ScriptTemplate[9] == OperationField
    ensures ScriptTemplate[3] == ScriptTemplate[7] == ScriptTemplate[11] == TimestampField
    ensures forall k :: 0 <= k < 13 && k % 2 == 0 ==> ScriptTemplate[k].Text?
  {
  }

  /** `content[:pos] + script + content[pos:]`: the script sits at `pos`, the
      text around it is the original, and taking it out gives the original back. */
  function Splice(content: string, pos: nat, script: string): (r: string)
    requires pos <= |content|
    ensures |r| == |content| + |script|
    ensures r[..pos] == content[..pos]
    ensures OccursAt(r, script, pos)
    ensures r[pos + |script|..] == content[pos..]
    ensures r[..pos] + r[pos + |script|..] == content
  {
    var r := content[..pos] + script + content[pos..];
    assert r[..pos] == content[..pos];
    assert r[pos..pos + |script|] == script;
    assert r[pos + |script|..] == content[pos..];
    r
  }

  // ---------------------------------------------------------------------
  // One pass of the middleware, as values

  /** What the `try` block makes of a present record: `None` when it raises,
      otherwise the response content it leaves behind. */
  function ProcessLog(log: LogRecord, contentType: string, content: string): (r: Option<string>)
    ensures r.None? <==> log.Undecodable? || (IsHtml(contentType) && !HasLogFields(log))
    ensures r.Some? && r.value != content ==> IsHtml(contentType) && Find(content, BodyClose) > 0
  {
    if log.Undecodable? then None
    else if !IsHtml(contentType) then Some(content)
    else if !HasLogFields(log) then None
    else
      var script := Script(log.fields["operation"], log.fields["timestamp"]);
      var bodyPos := Find(content, BodyClose);
      if bodyPos > 0 then Some(Splice(content, bodyPos, script)) else Some(content)
  }

  /** When the page is HTML, the record is complete and `</body>` first
      occurs past the very start, the script lands right before that
      `</body>` and nothing else of the page changes. */
  lemma InjectedBeforeBody(log: LogRecord, contentType: string, content: string)
    requires IsHtml(contentType) && HasLogFields(log) && Find(content, BodyClose) > 0
    ensures
      var pos := Find(content, BodyClose);
      var script := Script(log.fields["operation"], log.fields["timestamp"]);
      var r := ProcessLog(log, contentType, content);
      && r.Some?
      && |r.value| == |content| + |script|
      && OccursAt(r.value, script, pos)
      && OccursAt(r.value, BodyClose, pos + |script|)
      && r.value[..pos] + r.value[pos + |script|..] == content
  {
  }

  /** Nothing is injected when the page is not HTML, or when it has no
      `</body>` or has it at index 0. */
  lemma ContentKeptWithoutInjection(log: LogRecord, contentType: string, content: string)
    requires !IsHtml(contentType) || Find(content, BodyClose) <= 0
    ensures ProcessLog(log, contentType, content).Some? ==> ProcessLog(log, contentType, content).value == content
  {
  }

  /** The session data, the response content and the session's modified flag
      after one pass. */
  datatype Pass = Pass(data: map<string, string>, content: string, modified: bool)

  /** One pass of `__call__` over the session and the response, with `loads`
      standing for `json.loads`: without a record nothing changes; when the
      `try` block raises nothing changes either and the record stays; otherwise
      the record is deleted, the session is marked modified and the content is
      what the block left. */
  function MiddlewarePass(data: map<string, string>, modified: bool, loads: string -> LogRecord,
                          contentType: string, content: string): (p: Pass)
    ensures LogKey !in data ==> p == Pass(data, content, modified)
    ensures forall k :: k != LogKey ==> (k in p.data <==> k in data)
    ensures forall k :: k in p.data && k != LogKey ==> p.data[k] == data[k]
  {
    if LogKey !in data then Pass(data, content, modified)
    else
      match ProcessLog(loads(data[LogKey]), contentType, content)
      case None => Pass(data, content, modified)
      case Some(c) => Pass(data - {LogKey}, c, true)
  }

  /** A record that is processed without error is gone afterwards, and so the
      next pass, whatever its response, changes nothing. */
  lemma {:induction false} LogConsumedOnce(data: map<string, string>, modified: bool, loads: string -> LogRecord,
                                           contentType: string, content: string,
                                           nextContentType: string, nextContent: string)
    requires LogKey in data && ProcessLog(loads(data[LogKey]), contentType, content).Some?
    ensures
      var p := MiddlewarePass(data, modified, loads, contentType, content);
      && LogKey !in p.data
      && p.modified
      && p.content == ProcessLog(loads(data[LogKey]), contentType, content).value
      && MiddlewarePass(p.data, p.modified, loads, nextContentType, nextContent) == Pass(p.data, nextContent, true)
  {
  }

  /** A record the `try` block cannot handle stays in the session, and the
      response and the modified flag are left as they were. */
  lemma FailureKeepsLog(data: map<string, string>, modified: bool, loads: string -> LogRecord,
                        contentType: string, content: string)
    requires LogKey in data
    requires loads(data[LogKey]).Undecodable? || (IsHtml(contentType) && !HasLogFields(loads(data[LogKey])))
    ensures MiddlewarePass(data, modified, loads, contentType, content) == Pass(data, content, modified)
  {
  }

  /** The HTML branch of the `try` block: build the script, find the first
      `</body>` and splice the script in front of it when it is past index 0. */
  method InjectScript(response: Response, log: LogRecord)
    requires IsHtml(response.contentType) && HasLogFields(log)
    modifies response
    ensures response.content == ProcessLog(log, old(response.contentType), old(response.content)).value
    ensures response.contentType == old(response.contentType)
  {
    var script := Script(log.fields["operation"], log.fields["timestamp"]);
    var content := response.content;
    var bodyPos := Find(content, BodyClose);
    if bodyPos > 0 {
      response.content := Splice(content, bodyPos, script);
    }
  }

  /** `Neo4jLoggerMiddleware.__call__` after `get_response`, on the session and
      the response in place. */
  method Call(session: Session, response: Response, loads: string -> LogRecord)
    modifies session, response
    ensures
      var p := MiddlewarePass(old(session.data), old(session.modified), loads,
                              old(response.contentType), old(response.content));
      && session.data == p.data && session.modified == p.modified
      && response.content == p.content && response.contentType == old(response.contentType)
  {
    if LogKey in session.data {
      var log := loads(session.data[LogKey]);
      if log.Undecodable? {
        return;
      }
      if IsHtml(response.contentType) {
        if !HasLogFields(log) {
          return;
        }
        InjectScript(response, log);
      }
      session.data := session.data - {LogKey};
      session.modified := true;
    }
  }
}
