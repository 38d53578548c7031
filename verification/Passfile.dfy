// The pgpass file the sidecar writes, and the rules libpq reads it by
// (section 34.16 "The Password File" of the PostgreSQL 16 documentation).
module Passfile {
  import opened Text

  datatype Server = Server(name: string, group: string, host: string, port: int, maintenanceDB: string,
                           username: string, passFile: string, sslMode: string, password: string)

  // ------------------------------------------------------------------
  // The writer.
  // ------------------------------------------------------------------

  // strings.ReplaceAll for a one-character pattern.
  function ReplaceAll(s: string, pattern: char, replacement: string): string {
    if s == "" then "" else (if s[0] == pattern then replacement else [s[0]]) + ReplaceAll(s[1..], pattern, replacement)
  }

  function Escape(s: string): string {
    ReplaceAll(ReplaceAll(s, '\\', "\\\\"), ':', "\\:")
  }

  function Line(s: Server): string {
    Escape("*") + ":" +
    (Itoa(s.port) + ":" + (Escape(s.maintenanceDB) + ":" + (Escape(s.username) + ":" + Escape(s.password))))
  }

  // One line for each server, in order.
  function Contents(servers: seq<Server>): string {
    if servers == [] then "" else Line(servers[0]) + "\n" + Contents(servers[1..])
  }

  // strings.Join with a newline.
  function Join(lines: seq<string>): string {
    if lines == [] then "" else if |lines| == 1 then lines[0] else lines[0] + "\n" + Join(lines[1..])
  }

  function Lines(servers: seq<Server>): seq<string> {
    seq(|servers|, i requires 0 <= i < |servers| => Line(servers[i]))
  }

  lemma {:induction false} JoinedLines(servers: seq<Server>)
    requires servers != []
    ensures Join(Lines(servers)) + "\n" == Contents(servers)
    ensures Join(Lines(servers)) != ""
  {
    assert Lines(servers)[1..] == Lines(servers[1..]);
    if |servers| > 1 {
      JoinedLines(servers[1..]);
    } else {
      assert Contents(servers) == Line(servers[0]) + "\n" + "";
    }
  }

  // The content writePassfile and writeLegacyPassfile hand to the file system.
  method Render(servers: seq<Server>) returns (content: string)
    ensures content == Contents(servers)
  {
    var lines: seq<string> := [];
    for i := 0 to |servers|
      invariant lines == Lines(servers)[..i]
    {
      lines := lines + [Line(servers[i])];
    }
    assert lines == Lines(servers);
    content := Join(lines);
    if servers != [] {
      JoinedLines(servers);
    }
    if content != "" {
      content := content + "\n";
    }
  }

  // ------------------------------------------------------------------
  // The two replacements are one escape for each character.
  // ------------------------------------------------------------------

  function EscapeChar(c: char): string {
    if c == '\\' then "\\\\" else if c == ':' then "\\:" else [c]
  }

  function EscapeEach(s: string): string {
    if s == "" then "" else EscapeChar(s[0]) + EscapeEach(s[1..])
  }

  lemma {:induction false} ReplaceAllAppend(a: string, b: string, pattern: char, replacement: string)
    ensures ReplaceAll(a + b, pattern, replacement) == ReplaceAll(a, pattern, replacement) + ReplaceAll(b, pattern, replacement)
  {
    if a == "" {
      assert a + b == b;
    } else {
      assert (a + b)[1..] == a[1..] + b;
      ReplaceAllAppend(a[1..], b, pattern, replacement);
    }
  }

  // What the first replacement makes of one character.
  function EscapeSlash(c: char): string { if c == '\\' then "\\\\" else [c] }

  lemma EscapeOne(c: char)
    ensures ReplaceAll(EscapeSlash(c), ':', "\\:") == EscapeChar(c)
  {
    ReplaceOne(c, ':', "\\:");
    if c == '\\' {
      assert EscapeSlash(c) == [c] + [c];
      ReplaceAllAppend([c], [c], ':', "\\:");
    }
  }

  lemma ReplaceOne(c: char, pattern: char, replacement: string)
    ensures ReplaceAll([c], pattern, replacement) == if c == pattern then replacement else [c]
  {
    assert [c][1..] == "";
    assert ReplaceAll("", pattern, replacement) == "";
  }

  lemma {:induction false} EscapeIsPerCharacter(s: string)
    ensures Escape(s) == EscapeEach(s)
  {
    if s != "" {
      var rest := ReplaceAll(s[1..], '\\', "\\\\");
      EscapeIsPerCharacter(s[1..]);
      assert ReplaceAll(s, '\\', "\\\\") == EscapeSlash(s[0]) + rest;
      ReplaceAllAppend(EscapeSlash(s[0]), rest, ':', "\\:");
      EscapeOne(s[0]);
    }
  }

  // ------------------------------------------------------------------
  // The reader.
  // ------------------------------------------------------------------

  // Where a field ends: the first colon that is not escaped.
  function FieldEnd(s: string): (end: nat)
    ensures end <= |s|
  {
    if s == "" || s[0] == ':' then 0
    else if s[0] == '\\' && |s| > 1 then 2 + FieldEnd(s[2..])
    else 1 + FieldEnd(s[1..])
  }

  // One field against one connection parameter: what follows the field's colon.
  function MatchField(buffer: string, token: string): Option<string> {
    var end := FieldEnd(buffer);
    if end == |buffer| then None
    else if buffer[..end] == "*" || Unescape(buffer[..end]) == token then Some(buffer[end + 1..])
    else None
  }

  function Unescape(s: string): string {
    if s == "" || s[0] == ':' then ""
    else if s[0] == '\\' && |s| > 1 then [s[1]] + Unescape(s[2..])
    else [s[0]] + Unescape(s[1..])
  }

  function StripCrlf(line: string): string {
    if line != "" && (line[|line| - 1] == '\n' || line[|line| - 1] == '\r') then StripCrlf(line[..|line| - 1]) else line
  }

  function MatchFields(buffer: string, host: string, port: string, db: string, user: string): Option<string> {
    match MatchField(buffer, host)
    case None => None
    case Some(afterHost) =>
    match MatchField(afterHost, port)
    case None => None
    case Some(afterPort) =>
    match MatchField(afterPort, db)
    case None => None
    case Some(afterDB) => MatchField(afterDB, user)
  }

  // Comments and empty lines are skipped; the rest after the four fields is the password.
  function ReadLine(line: string, host: string, port: string, db: string, user: string): Option<string> {
    if (line != "" && line[0] == '#') || StripCrlf(line) == "" then None
    else
      match MatchFields(StripCrlf(line), host, port, db, user)
      case None => None
      case Some(password) => Some(Unescape(password))
  }

  function LineEnd(s: string): (end: nat)
    ensures end <= |s| && '\n' !in s[..end] && (end < |s| ==> s[end] == '\n')
  {
    if s == "" || s[0] == '\n' then 0
    else
      assert s[..1 + LineEnd(s[1..])] == [s[0]] + s[1..][..LineEnd(s[1..])];
      1 + LineEnd(s[1..])
  }

  function Lookup(file: string, host: string, port: string, db: string, user: string): Option<string>
    decreases |file|
  {
    if file == "" then None
    else
      var end := LineEnd(file);
      match ReadLine(file[..end], host, port, db, user)
      case Some(password) => Some(password)
      case None => if end == |file| then None else Lookup(file[end + 1..], host, port, db, user)
  }

  // ------------------------------------------------------------------
  // Reading what was written.
  // ------------------------------------------------------------------

  // A field that stays on its line and inside a C string.
  predicate Plain(s: string) {
    '\n' !in s && '\r' !in s && '\0' !in s
  }

  predicate PlainServer(s: Server) {
    Plain(s.maintenanceDB) && Plain(s.username) && Plain(s.password)
  }

  // A field that is exactly * stands for any value, as the file format has it.
  predicate FieldAccepts(field: string, value: string) { field == "*" || field == value }

  predicate Accepts(s: Server, port: string, db: string, user: string) {
    Itoa(s.port) == port && FieldAccepts(s.maintenanceDB, db) && FieldAccepts(s.username, user)
  }

  function FirstPassword(servers: seq<Server>, port: string, db: string, user: string): Option<string> {
    if servers == [] then None
    else if Accepts(servers[0], port, db, user) then Some(servers[0].password)
    else FirstPassword(servers[1..], port, db, user)
  }

  lemma {:induction false} EscapedFieldEnd(field: string, rest: string)
    ensures FieldEnd(EscapeEach(field) + ":" + rest) == |EscapeEach(field)|
  {
    var buffer := EscapeEach(field) + ":" + rest;
    if field != "" {
      var tail := EscapeEach(field[1..]) + ":" + rest;
      assert buffer[|EscapeChar(field[0])|..] == tail;
      EscapedFieldEnd(field[1..], rest);
    } else {
      assert buffer == ":" + rest;
    }
  }

  lemma StarEscapesToItself(field: string)
    ensures EscapeEach(field) == "*" <==> field == "*"
  {
    if field == "*" {
      assert EscapeEach(field) == EscapeChar('*') + EscapeEach("");
    } else if |field| > 1 {
      assert EscapeEach(field) == EscapeChar(field[0]) + (EscapeChar(field[1]) + EscapeEach(field[2..]));
    }
  }

  lemma {:induction false} UnescapeInvertsEscape(s: string)
    ensures Unescape(EscapeEach(s)) == s
  {
    if s != "" {
      UnescapeInvertsEscape(s[1..]);
      var escaped := EscapeEach(s);
      if s[0] == '\\' || s[0] == ':' {
        assert escaped[2..] == EscapeEach(s[1..]);
      } else {
        assert escaped[1..] == EscapeEach(s[1..]);
      }
    }
  }

  lemma MatchEscapedField(field: string, rest: string, token: string)
    ensures MatchField(Escape(field) + ":" + rest, token) == if FieldAccepts(field, token) then Some(rest) else None
  {
    EscapeIsPerCharacter(field);
    EscapedFieldEnd(field, rest);
    UnescapeInvertsEscape(field);
    StarEscapesToItself(field);
    var buffer := EscapeEach(field) + ":" + rest;
    assert buffer[..|EscapeEach(field)|] == EscapeEach(field);
    assert buffer[|EscapeEach(field)| + 1..] == rest;
  }

  lemma {:induction false} DigitsNeedNoEscape(s: string)
    requires forall i | 0 <= i < |s| :: s[i] != ':' && s[i] != '\\'
    ensures EscapeEach(s) == s
  {
    if s != "" {
      DigitsNeedNoEscape(s[1..]);
    }
  }

  lemma MatchPort(port: int, rest: string, token: string)
    ensures MatchField(Itoa(port) + ":" + rest, token) == if Itoa(port) == token then Some(rest) else None
  {
    PortText(port);
    DigitsNeedNoEscape(Itoa(port));
    EscapeIsPerCharacter(Itoa(port));
    MatchEscapedField(Itoa(port), rest, token);
  }

  lemma PortText(port: int)
    ensures forall i | 0 <= i < |Itoa(port)| :: IsDigit(Itoa(port)[i]) || Itoa(port)[i] == '-'
    ensures Itoa(port) != "*"
  {
    if port < 0 { DigitsRoundTrip(-port); } else { DigitsRoundTrip(port); }
  }

  lemma {:induction false} EscapedIsPlain(s: string)
    requires Plain(s)
    ensures Plain(EscapeEach(s))
  {
    if s != "" {
      EscapedIsPlain(s[1..]);
    }
  }

  lemma JoinedIsPlain(a: string, b: string)
    requires Plain(a) && Plain(b)
    ensures Plain(a + ":" + b)
  {}

  lemma LineIsPlain(s: Server)
    requires PlainServer(s)
    ensures Plain(Line(s)) && |Line(s)| > 2 && Line(s)[0] == '*'
  {
    EscapeIsPerCharacter("*");
    assert EscapeEach("*") == "*" + EscapeEach("");
    EscapeIsPerCharacter(s.maintenanceDB);
    EscapeIsPerCharacter(s.username);
    EscapeIsPerCharacter(s.password);
    EscapedIsPlain(s.maintenanceDB);
    EscapedIsPlain(s.username);
    EscapedIsPlain(s.password);
    PortText(s.port);
    var afterDB := Escape(s.username) + ":" + Escape(s.password);
    var afterPort := Escape(s.maintenanceDB) + ":" + afterDB;
    JoinedIsPlain(Escape(s.username), Escape(s.password));
    JoinedIsPlain(Escape(s.maintenanceDB), afterDB);
    JoinedIsPlain(Itoa(s.port), afterPort);
    JoinedIsPlain("*", Itoa(s.port) + ":" + afterPort);
  }

  lemma MatchInOrder(buffer: string, host: string, port: string, db: string, user: string,
                     afterHost: string, afterPort: string, afterDB: string)
    requires MatchField(buffer, host) == Some(afterHost)
    requires MatchField(afterHost, port) in {None, Some(afterPort)}
    requires MatchField(afterPort, db) in {None, Some(afterDB)}
    ensures MatchFields(buffer, host, port, db, user)
            == if MatchField(afterHost, port) == None || MatchField(afterPort, db) == None then None
               else MatchField(afterDB, user)
  {}

  lemma MatchWrittenFields(s: Server, host: string, port: string, db: string, user: string)
    ensures MatchFields(Line(s), host, port, db, user)
            == if Accepts(s, port, db, user) then Some(Escape(s.password)) else None
  {
    var afterDB := Escape(s.username) + ":" + Escape(s.password);
    var afterPort := Escape(s.maintenanceDB) + ":" + afterDB;
    var afterHost := Itoa(s.port) + ":" + afterPort;
    MatchEscapedField("*", afterHost, host);
    MatchPort(s.port, afterPort, port);
    MatchEscapedField(s.maintenanceDB, afterDB, db);
    MatchEscapedField(s.username, Escape(s.password), user);
    MatchInOrder(Line(s), host, port, db, user, afterHost, afterPort, afterDB);
  }

  // A written line, read back, yields its password for exactly the connections
  // it accepts.
  lemma ReadWrittenLine(s: Server, host: string, port: string, db: string, user: string)
    requires PlainServer(s)
    ensures ReadLine(Line(s), host, port, db, user) == if Accepts(s, port, db, user) then Some(s.password) else None
  {
    LineIsPlain(s);
    assert Line(s)[|Line(s)| - 1] in Line(s);
    MatchWrittenFields(s, host, port, db, user);
    EscapeIsPerCharacter(s.password);
    UnescapeInvertsEscape(s.password);
  }

  lemma FirstLineEnd(line: string, rest: string)
    requires '\n' !in line
    ensures LineEnd(line + "\n" + rest) == |line|
  {
    var s := line + "\n" + rest;
    assert s[|line|] == '\n';
    assert forall i | 0 <= i < |line| :: s[i] == line[i];
    assert LineEnd(s) >= |line|;
  }

  // The file, read by libpq's rules, answers any connection with the password
  // of the first server that accepts it, or with none.
  lemma {:induction false} WrittenFileReadsBack(servers: seq<Server>, host: string, port: string, db: string, user: string)
    requires forall i | 0 <= i < |servers| :: PlainServer(servers[i])
    ensures Lookup(Contents(servers), host, port, db, user) == FirstPassword(servers, port, db, user)
  {
    if servers != [] {
      var line, rest := Line(servers[0]), Contents(servers[1..]);
      var file := line + "\n" + rest;
      LineIsPlain(servers[0]);
      FirstLineEnd(line, rest);
      assert file[..|line|] == line && file[|line| + 1..] == rest;
      ReadWrittenLine(servers[0], host, port, db, user);
      WrittenFileReadsBack(servers[1..], host, port, db, user);
    }
  }

  function Newlines(s: string): nat {
    if s == "" then 0 else (if s[0] == '\n' then 1 else 0) + Newlines(s[1..])
  }

  lemma {:induction false} NewlinesAppend(a: string, b: string)
    ensures Newlines(a + b) == Newlines(a) + Newlines(b)
  {
    if a == "" {
      assert a + b == b;
    } else {
      assert (a + b)[1..] == a[1..] + b;
      NewlinesAppend(a[1..], b);
    }
  }

  lemma {:induction false} NoNewlines(s: string)
    requires '\n' !in s
    ensures Newlines(s) == 0
  {
    if s != "" {
      NoNewlines(s[1..]);
    }
  }

  // The file has one line for each server, and every line is ended.
  lemma {:induction false} FileIsOneLineEach(servers: seq<Server>)
    requires forall i | 0 <= i < |servers| :: PlainServer(servers[i])
    ensures Newlines(Contents(servers)) == |servers|
    ensures servers == [] ==> Contents(servers) == ""
    ensures servers != [] ==> Contents(servers) != "" && Contents(servers)[|Contents(servers)| - 1] == '\n'
  {
    if servers != [] {
      LineIsPlain(servers[0]);
      NoNewlines(Line(servers[0]));
      FileIsOneLineEach(servers[1..]);
      NewlinesAppend(Line(servers[0]) + "\n", Contents(servers[1..]));
      NewlinesAppend(Line(servers[0]), "\n");
      assert "\n"[1..] == "";
      assert Newlines("\n") == 1;
      assert |servers| == 1 ==> Contents(servers) == Line(servers[0]) + "\n";
    }
  }

  predicate Answers(s: Server, host: string, port: string, db: string, user: string) {
    ReadLine(Line(s), host, port, db, user).Some?
  }

  lemma AnswersIffAccepts(s: Server, host: string, port: string, db: string, user: string)
    requires PlainServer(s)
    ensures Answers(s, host, port, db, user) <==> Accepts(s, port, db, user)
  {
    ReadWrittenLine(s, host, port, db, user);
  }

  ghost predicate AnswersOnlyItsOwn(s: Server) {
    forall host, port, db, user ::
      Answers(s, host, port, db, user) <==> port == Itoa(s.port) && db == s.maintenanceDB && user == s.username
  }

  lemma PlainFieldsAnswerTheirOwn(s: Server)
    requires PlainServer(s) && s.maintenanceDB != "*" && s.username != "*"
    ensures AnswersOnlyItsOwn(s)
  {
    forall host, port, db, user
      ensures Answers(s, host, port, db, user) <==> port == Itoa(s.port) && db == s.maintenanceDB && user == s.username
    {
      AnswersIffAccepts(s, host, port, db, user);
    }
  }

  lemma StarAnswersOthers(s: Server, host: string, other: string)
    requires PlainServer(s) && (s.maintenanceDB == "*" || s.username == "*") && other != "*"
    ensures !AnswersOnlyItsOwn(s)
  {
    var db := if s.maintenanceDB == "*" then other else s.maintenanceDB;
    var user := if s.username == "*" then other else s.username;
    AnswersIffAccepts(s, host, Itoa(s.port), db, user);
  }

  // A written line, read back, answers only its own port, database and user
  // exactly when neither database nor user is the literal *, which escaping
  // leaves as it is.
  lemma ExactIffNoLiteralStar(s: Server)
    requires PlainServer(s)
    ensures AnswersOnlyItsOwn(s) <==> s.maintenanceDB != "*" && s.username != "*"
  {
    if s.maintenanceDB != "*" && s.username != "*" {
      PlainFieldsAnswerTheirOwn(s);
    } else {
      StarAnswersOthers(s, s.host, "postgres");
    }
  }
}
