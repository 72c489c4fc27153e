/** The feedback issue: an employee's comment, some context and, with consent, the statement file,
    all made inert and kept under GitHub's limit (app/utils/feedback.ts). */
module Feedback {
  import opened Outcome
  import opened Text

  const MAX_COMMENT_LENGTH := 5000
  const MAX_CONTEXT_VALUE := 300
  const MAX_FILE_EMBED := 30000
  const MAX_FILE_EMBED_ESCAPED := 35000
  const FILE_EMBED_SUMMARY := "Показать " + "содержимое"
  const SUMMARY_TAG := "<summary>" + FILE_EMBED_SUMMARY + "</summary>"
  const OPENING := "<details>" + SUMMARY_TAG
  const CLOSING := "</details>"
  const CAPTION := "**Файл выписки** " + "(приложен " + "по согласию " + "сотрудника):"

  // ---- Hostile characters

  /** C0 controls other than tab, LF and CR; bidi overrides, zero-widths, invisible operators, line
      separators and BOM. */
  predicate Hostile(c: char)
  {
    || c <= '\U{8}' || c == '\U{B}' || c == '\U{C}' || '\U{E}' <= c <= '\U{1F}' || c == '\U{61C}'
    || '\U{200B}' <= c <= '\U{200D}' || '\U{2028}' <= c <= '\U{202E}' || '\U{2060}' <= c <= '\U{2064}'
    || '\U{2066}' <= c <= '\U{2069}' || c == '\U{FEFF}'
  }

  function StripHostileChars(s: string): (r: string)
    ensures |r| <= |s|
    ensures forall k :: 0 <= k < |r| ==> !Hostile(r[k])
  {
    if s == "" then "" else (if Hostile(s[0]) then "" else [s[0]]) + StripHostileChars(s[1..])
  }

  function SanitizeComment(input: string): string
  {
    var stripped := StripHostileChars(input);
    if |stripped| <= MAX_COMMENT_LENGTH then stripped
    else stripped[..MAX_COMMENT_LENGTH] + "…\n\n[truncated to 5000 characters]"
  }

  // ---- Escaping

  /** Three replacements over the whole text, one after the other. */
  function EscapeHtml(s: string): string
  {
    ReplaceChar(ReplaceChar(ReplaceChar(s, '&', "&amp;"), '<', "&lt;"), '>', "&gt;")
  }

  /** What each character becomes. */
  function Entity(c: char): string
  {
    if c == '&' then "&amp;" else if c == '<' then "&lt;" else if c == '>' then "&gt;" else [c]
  }

  function EscapeEach(s: string): string
  {
    if s == "" then "" else Entity(s[0]) + EscapeEach(s[1..])
  }

  lemma ReplaceOne(c: char, d: char, r: string)
    ensures ReplaceChar([c], d, r) == if c == d then r else [c]
  {
    assert [c][1..] == "";
    assert r + "" == r && [c] + "" == [c];
  }

  lemma EscapeOne(c: char)
    ensures EscapeHtml([c]) == Entity(c)
  {
    hide ReplaceChar;
    ReplaceOne(c, '&', "&amp;");
    ReplaceNone("&amp;", '<', "&lt;");
    ReplaceNone("&amp;", '>', "&gt;");
    ReplaceOne(c, '<', "&lt;");
    ReplaceNone("&lt;", '>', "&gt;");
    ReplaceOne(c, '>', "&gt;");
  }

  /** No replacement touches what an earlier one produced: together they escape character by character. */
  lemma {:induction false} EscapeIsPerCharacter(s: string)
    ensures EscapeHtml(s) == EscapeEach(s)
  {
    hide ReplaceChar, Entity;
    if s == "" {
      EmptyEscape();
    } else {
      var c, rest := [s[0]], s[1..];
      assert s == c + rest;
      ReplaceAppend(c, rest, '&', "&amp;");
      var c1, r1 := ReplaceChar(c, '&', "&amp;"), ReplaceChar(rest, '&', "&amp;");
      ReplaceAppend(c1, r1, '<', "&lt;");
      ReplaceAppend(ReplaceChar(c1, '<', "&lt;"), ReplaceChar(r1, '<', "&lt;"), '>', "&gt;");
      EscapeOne(s[0]);
      EscapeIsPerCharacter(rest);
    }
  }

  lemma EmptyEscape()
    ensures EscapeHtml("") == ""
  {
  }

  lemma {:induction false} EscapeAppend(a: string, b: string)
    ensures EscapeEach(a + b) == EscapeEach(a) + EscapeEach(b)
  {
    hide Entity;
    if a == "" {
      assert a + b == b;
    } else {
      assert (a + b)[1..] == a[1..] + b;
      EscapeAppend(a[1..], b);
    }
  }

  /** Escaped text is inert, and at most five times as long. */
  lemma {:induction false} EscapeInert(s: string)
    ensures '<' !in EscapeEach(s) && '>' !in EscapeEach(s)
    ensures |s| <= |EscapeEach(s)| <= 5 * |s|
  {
    if s != "" {
      EscapeInert(s[1..]);
    }
  }

  // ---- Cutting escaped text

  /** The first `&` with no `;` anywhere after it, or the end. */
  function PartialEntity(t: string, i: nat): (k: nat)
    requires i <= |t|
    ensures i <= k <= |t|
    ensures k < |t| ==> t[k] == '&' && ';' !in t[k..]
    ensures forall j :: i <= j < k && t[j] == '&' ==> ';' in t[j..]
    decreases |t| - i
  {
    if i == |t| || (t[i] == '&' && ';' !in t[i..]) then i else PartialEntity(t, i + 1)
  }

  /** `replace(/&[^;]*$/, '')`. */
  function DropPartialEntity(t: string): string
  {
    t[..PartialEntity(t, 0)]
  }

  lemma EntityShape(c: char)
    ensures 1 <= |Entity(c)| <= 5
    ensures |Entity(c)| > 1 ==> Entity(c)[0] == '&' && Entity(c)[|Entity(c)| - 1] == ';'
    ensures |Entity(c)| > 1 ==> forall k :: 0 <= k < |Entity(c)| - 1 ==> Entity(c)[k] != ';'
    ensures |Entity(c)| == 1 ==> Entity(c) == [c] && c != '&'
  {
  }

  /** Every `&` of an escaped text is closed by a `;`. */
  lemma {:induction false} AmpersandsClosed(s: string, j: nat)
    requires j < |EscapeEach(s)| && EscapeEach(s)[j] == '&'
    ensures ';' in EscapeEach(s)[j..]
  {
    hide Entity;
    var e := Entity(s[0]);
    EntityShape(s[0]);
    if j < |e| {
      assert EscapeEach(s)[|e| - 1] == e[|e| - 1] == ';' by {
        assert j == 0 || |e| > 1;
      }
      assert EscapeEach(s)[j..][|e| - 1 - j] == ';';
    } else {
      AmpersandsClosed(s[1..], j - |e|);
      assert EscapeEach(s)[j..] == EscapeEach(s[1..])[j - |e|..];
    }
  }

  /** The longest prefix of the raw text whose escape fits. */
  function Fitting(s: string, cap: nat): (k: nat)
    ensures k <= |s| && |EscapeEach(s[..k])| <= cap
    ensures k < |s| ==> |EscapeEach(s[..k])| + |Entity(s[k])| > cap
  {
    if s == "" || |Entity(s[0])| > cap then
      assert s[..0] == "";
      0
    else
      var k := Fitting(s[1..], cap - |Entity(s[0])|);
      assert s[..k + 1][1..] == s[1..][..k];
      k + 1
  }

  /** Cutting the escaped text and dropping the torn entity gives the escape of a prefix of the raw
      text, and the longest one that fits. */
  lemma CutIsEscapedPrefix(s: string, cap: nat)
    requires cap < |EscapeEach(s)|
    ensures var k := Fitting(s, cap);
            k < |s| && DropPartialEntity(EscapeEach(s)[..cap]) == EscapeEach(s[..k])
  {
    hide Entity, EscapeEach, DropPartialEntity;
    var k := Fitting(s, cap);
    var done, cut := EscapeEach(s[..k]), EscapeEach(s)[..cap];
    assert s[..|s|] == s;
    assert k < |s|;
    var e := Entity(s[k]);
    EscapedSplit(s, k);
    EntityShape(s[k]);
    var torn := e[..cap - |done|];
    assert cut == done + torn by {
      assert EscapeEach(s) == done + e + EscapeEach(s[k + 1..]);
    }
    ClosedPrefix(s[..k]);
    DropTorn(done, torn);
  }

  lemma EscapedSplit(s: string, k: nat)
    requires k < |s|
    ensures EscapeEach(s) == EscapeEach(s[..k]) + Entity(s[k]) + EscapeEach(s[k + 1..])
  {
    hide Entity, EscapeEach;
    assert s == s[..k] + s[k..] && s[k..][1..] == s[k + 1..] && s[k..][0] == s[k];
    EscapeAppend(s[..k], s[k..]);
    EscapeFirst(s[k..]);
  }

  lemma EscapeFirst(s: string)
    requires s != ""
    ensures EscapeEach(s) == Entity(s[0]) + EscapeEach(s[1..])
  {
    hide Entity;
  }

  predicate Closed(t: string)
  {
    forall j :: 0 <= j < |t| && t[j] == '&' ==> ';' in t[j..]
  }

  lemma ClosedPrefix(s: string)
    ensures Closed(EscapeEach(s))
  {
    hide EscapeEach;
    forall j | 0 <= j < |EscapeEach(s)| && EscapeEach(s)[j] == '&' ensures ';' in EscapeEach(s)[j..] {
      AmpersandsClosed(s, j);
    }
  }

  lemma DropTorn(done: string, torn: string)
    requires Closed(done) && ';' !in torn && (torn != "" ==> torn[0] == '&')
    ensures DropPartialEntity(done + torn) == done
  {
    var t := done + torn;
    forall j | 0 <= j < |done| && t[j] == '&' ensures ';' in t[j..] {
      assert t[j..] == done[j..] + torn;
    }
    assert t[|done|..] == torn;
    assert t[..|done|] == done;
  }

  // ---- The statement block

  const RAW_NOTE := "\n\n[обрезано до 30000 символов]"
  const NOTE := "\n\n[обрезано]"

  function CapRaw(stripped: string): string
  {
    if |stripped| <= MAX_FILE_EMBED then stripped else stripped[..MAX_FILE_EMBED] + RAW_NOTE
  }

  function CapEscaped(content: string): string
  {
    if |content| > MAX_FILE_EMBED_ESCAPED then DropPartialEntity(content[..MAX_FILE_EMBED_ESCAPED]) + NOTE
    else content
  }

  function FileContent(value: string): string
  {
    CapEscaped(EscapeHtml(CapRaw(StripHostileChars(value))))
  }

  function FileEmbedLines(value: string): seq<string>
  {
    if Trim(StripHostileChars(value)) == "" then []
    else ["", CAPTION, OPENING, "", "<pre><code>", FileContent(value), "</code></pre>", CLOSING]
  }

  /** What ends up in the block is the escape of a prefix of the file, with at most a note after it. */
  lemma FileContentInert(value: string)
    ensures '<' !in FileContent(value) && '>' !in FileContent(value)
    ensures |FileContent(value)| <= MAX_FILE_EMBED_ESCAPED + |NOTE|
    ensures exists k: nat :: IsEscapedPrefix(FileContent(value), CapRaw(StripHostileChars(value)), k)
  {
    hide EscapeEach, DropPartialEntity, StripHostileChars, CapRaw, EscapeHtml, NOTE;
    var raw := CapRaw(StripHostileChars(value));
    EscapeIsPerCharacter(raw);
    NoteInert();
    if |EscapeEach(raw)| > MAX_FILE_EMBED_ESCAPED {
      CutIsEscapedPrefix(raw, MAX_FILE_EMBED_ESCAPED);
      var k := Fitting(raw, MAX_FILE_EMBED_ESCAPED);
      EscapeInert(raw[..k]);
      assert IsEscapedPrefix(FileContent(value), raw, k);
    } else {
      EscapeInert(raw);
      assert raw[..|raw|] == raw;
      assert IsEscapedPrefix(FileContent(value), raw, |raw|);
    }
  }

  lemma NoteInert()
    ensures '<' !in NOTE && '>' !in NOTE
  {
  }

  predicate IsEscapedPrefix(content: string, raw: string, k: nat)
  {
    && k <= |raw|
    && content == EscapeEach(raw[..k]) + if k == |raw| then "" else NOTE
  }

  // ---- Context lines

  /** `replace(/[\r\n\t]+/g, ' ')`; `inRun` says a run has just been replaced. */
  function FlattenBreaks(s: string, inRun: bool): (r: string)
    ensures forall k :: 0 <= k < |r| ==> r[k] !in "\r\n\t"
  {
    if s == "" then ""
    else if s[0] in "\r\n\t" then (if inRun then "" else " ") + FlattenBreaks(s[1..], true)
    else [s[0]] + FlattenBreaks(s[1..], false)
  }

  function Flat(value: string): string
  {
    var t := Trim(ReplaceChar(FlattenBreaks(StripHostileChars(value), false), '`', ""));
    if |t| > MAX_CONTEXT_VALUE then t[..MAX_CONTEXT_VALUE] else t
  }

  function ContextLine(title: string, value: string): (lines: seq<string>)
    ensures |lines| <= 1
  {
    var flat := Flat(value);
    if flat == "" then [] else ["- **" + title + ":** `" + flat + "`"]
  }

  lemma {:induction false} ReplaceRemoves(s: string, c: char, d: char)
    ensures c !in ReplaceChar(s, c, "")
    ensures d !in s ==> d !in ReplaceChar(s, c, "")
  {
    if s != "" {
      ReplaceRemoves(s[1..], c, d);
    }
  }

  lemma InTrim(s: string, c: char)
    requires c !in s
    ensures c !in Trim(s)
  {
    var left, right := TrimKeeps(s);
    hide Trim, IsSpace;
    forall k | 0 <= k < |Trim(s)| ensures Trim(s)[k] != c {
      assert s[|left| + k] == Trim(s)[k];
    }
  }

  /** A context value stays on one line and inside its code span: no line break and no backtick of
      its own reaches the body, and at most 300 characters do. */
  lemma ContextInert(value: string)
    ensures '`' !in Flat(value) && '\n' !in Flat(value) && '\r' !in Flat(value) && '\t' !in Flat(value)
    ensures |Flat(value)| <= 300
  {
    hide Trim, ReplaceChar, FlattenBreaks, StripHostileChars;
    var flattened := FlattenBreaks(StripHostileChars(value), false);
    assert '\n' in "\r\n\t" && '\r' in "\r\n\t" && '\t' in "\r\n\t";
    ReplaceRemoves(flattened, '`', '\n');
    ReplaceRemoves(flattened, '`', '\r');
    ReplaceRemoves(flattened, '`', '\t');
    var plain := ReplaceChar(flattened, '`', "");
    InTrim(plain, '`');
    InTrim(plain, '\n');
    InTrim(plain, '\r');
    InTrim(plain, '\t');
  }

  // ---- The issue body

  datatype Kind = Up | Down

  const OPERATION_FIELDS := [
    ("direction", "Направление"), ("amount", "Сумма"), ("currency", "Валюта"), ("purpose", "Назначение"),
    ("counterparty", "Контрагент"), ("counterpartyAccount", "Счёт контрагента"),
    ("counterpartyUnp", "УНП контрагента")]

  /** The optional context of a report; an absent value is the empty string. */
  datatype Context = Context(place: string, fileName: string, appVersion: string,
                             operation: Option<map<string, string>>)

  function KindWord(kind: Kind): string
  {
    if kind.Up? then "положительный " + Encoded('👍') else "отрицательный " + Encoded('👎')
  }

  function OperationLines(operation: map<string, string>, n: nat): seq<string>
    requires n <= |OPERATION_FIELDS|
  {
    if n == 0 then []
    else
      var (key, title) := OPERATION_FIELDS[n - 1];
      OperationLines(operation, n - 1) + ContextLine(title, if key in operation then operation[key] else "")
  }

  function ContextLines(c: Context): seq<string>
  {
    ContextLine("Где", c.place) + ContextLine("Файл", c.fileName) + ContextLine("Версия приложения", c.appVersion)
    + if c.operation.Some? then OperationLines(c.operation.value, |OPERATION_FIELDS|) else []
  }

  function SafeComment(comment: string): string
  {
    var safe := Trim(EscapeHtml(SanitizeComment(comment)));
    if safe == "" then "(без текста)" else safe
  }

  /** Everything above the statement block. */
  function FrontLines(kind: Kind, comment: string, c: Context): (lines: seq<string>)
    ensures lines != []
  {
    var context := ContextLines(c);
    ["- **Оценка:** " + KindWord(kind), "", "**Комментарий:**", "<pre><code>", SafeComment(comment), "</code></pre>"]
    + if context == [] then [] else ["", "**Контекст:**"] + context
  }

  function IssueBody(kind: Kind, comment: string, c: Context, file: string): string
  {
    Join(FrontLines(kind, comment, c) + FileEmbedLines(file), "\n")
  }

  // ---- The length cap

  function Total(lines: seq<string>): nat
  {
    if lines == [] then 0 else |lines[0]| + Total(lines[1..])
  }

  lemma {:induction false} TotalAppend(a: seq<string>, b: seq<string>)
    ensures Total(a + b) == Total(a) + Total(b)
  {
    if a == [] {
      assert a + b == b;
    } else {
      assert (a + b)[1..] == a[1..] + b;
      TotalAppend(a[1..], b);
    }
  }

  lemma {:induction false} JoinLength(lines: seq<string>)
    ensures |Join(lines, "\n")| <= Total(lines) + |lines|
  {
    if |lines| > 1 {
      JoinLength(lines[1..]);
    } else if |lines| == 1 {
      assert lines[1..] == [];
    }
  }

  lemma ContextLineLength(title: string, value: string)
    requires |title| <= 20
    ensures Total(ContextLine(title, value)) <= 331
  {
    hide Flat;
    ContextInert(value);
    var lines := ContextLine(title, value);
    if lines != [] {
      assert lines[1..] == [];
    }
  }

  lemma {:induction false} OperationLinesLength(operation: map<string, string>, n: nat)
    requires n <= |OPERATION_FIELDS|
    ensures Total(OperationLines(operation, n)) <= 331 * n && |OperationLines(operation, n)| <= n
  {
    hide ContextLine;
    if n > 0 {
      OperationLinesLength(operation, n - 1);
      var (key, title) := OPERATION_FIELDS[n - 1];
      var line := ContextLine(title, if key in operation then operation[key] else "");
      ContextLineLength(title, if key in operation then operation[key] else "");
      TotalAppend(OperationLines(operation, n - 1), line);
    }
  }

  lemma ContextLength(c: Context)
    ensures Total(ContextLines(c)) <= 3310 && |ContextLines(c)| <= 10
  {
    hide ContextLine, OperationLines, Total;
    var a, b, d := ContextLine("Где", c.place), ContextLine("Файл", c.fileName), ContextLine("Версия приложения", c.appVersion);
    var e := if c.operation.Some? then OperationLines(c.operation.value, |OPERATION_FIELDS|) else [];
    ContextLineLength("Где", c.place);
    ContextLineLength("Файл", c.fileName);
    ContextLineLength("Версия приложения", c.appVersion);
    if c.operation.Some? {
      OperationLinesLength(c.operation.value, |OPERATION_FIELDS|);
    }
    NoLines();
    TotalAppend(a + b + d, e);
    TotalAppend(a + b, d);
    TotalAppend(a, b);
  }

  lemma NoLines()
    ensures Total([]) == 0
  {
  }

  lemma CommentLength(comment: string)
    ensures |SafeComment(comment)| <= 25200
  {
    hide EscapeEach, EscapeHtml, StripHostileChars, Trim, IsSpace;
    var s := SanitizeComment(comment);
    assert |s| <= 5040;
    EscapeIsPerCharacter(s);
    EscapeInert(s);
    var left, right := TrimKeeps(EscapeHtml(s));
  }

  lemma SixLines(a: string, b: string, c: string, d: string, e: string, f: string)
    ensures Total([a, b, c, d, e, f]) == |a| + |b| + |c| + |d| + |e| + |f|
  {
    hide Total;
    TwoLines(a, b);
    TwoLines(c, d);
    TwoLines(e, f);
    TotalAppend([a, b], [c, d]);
    TotalAppend([a, b] + [c, d], [e, f]);
    assert [a, b] + [c, d] + [e, f] == [a, b, c, d, e, f];
  }

  lemma FrontLength(kind: Kind, comment: string, c: Context)
    ensures Total(FrontLines(kind, comment, c)) <= 28700 && |FrontLines(kind, comment, c)| <= 18
  {
    hide SafeComment, ContextLines, Total;
    CommentLength(comment);
    ContextLength(c);
    var head := ["- **Оценка:** " + KindWord(kind), "", "**Комментарий:**", "<pre><code>", SafeComment(comment), "</code></pre>"];
    SixLines(head[0], head[1], head[2], head[3], head[4], head[5]);
    var context := ContextLines(c);
    var tail := if context == [] then [] else ["", "**Контекст:**"] + context;
    TwoLines("", "**Контекст:**");
    TotalAppend(["", "**Контекст:**"], context);
    NoLines();
    TotalAppend(head, tail);
  }

  lemma TwoLines(a: string, b: string)
    ensures Total([a, b]) == |a| + |b|
  {
    assert [a, b][1..] == [b] && [b][1..] == [];
    assert Total([b]) == |b|;
  }

  lemma EmbedLength(file: string)
    ensures Total(FileEmbedLines(file)) <= 35200 && |FileEmbedLines(file)| <= 8
  {
    hide FileContent, Total, Trim, StripHostileChars;
    FileContentInert(file);
    var lines := FileEmbedLines(file);
    if lines == [] {
      NoLines();
    } else {
      assert lines == ["", CAPTION] + [OPENING, "", "<pre><code>", FileContent(file), "</code></pre>", CLOSING];
      TwoLines("", CAPTION);
      SixLines(OPENING, "", "<pre><code>", FileContent(file), "</code></pre>", CLOSING);
      TotalAppend(["", CAPTION], [OPENING, "", "<pre><code>", FileContent(file), "</code></pre>", CLOSING]);
    }
  }

  /** Whatever is typed, named or attached, the body stays below GitHub's limit, with over a thousand
      code units to spare. */
  lemma BodyWithinLimit(kind: Kind, comment: string, c: Context, file: string)
    ensures |IssueBody(kind, comment, c, file)| <= 65_536 - 1500
  {
    hide Total, FrontLines, FileEmbedLines, Join;
    FrontLength(kind, comment, c);
    EmbedLength(file);
    TotalAppend(FrontLines(kind, comment, c), FileEmbedLines(file));
    JoinLength(FrontLines(kind, comment, c) + FileEmbedLines(file));
  }
}
