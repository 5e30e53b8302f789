// The hand-written request validators: UUIDs, chat messages, conversations
// and upload descriptions. Each collects issues and succeeds when there are none.
module Validation {
  import opened Wrappers
  import Text
  import JsValue

  datatype Issue = Issue(path: seq<string>, message: string)

  // ---------------------------------------------------------------- UUIDs

  /** `[0-9a-f]` under the `i` flag. */
  predicate IsHexDigit(c: char) { Text.IsDigit(c) || 'a' <= c <= 'f' || 'A' <= c <= 'F' }

  predicate IsDashPosition(i: int) { i == 8 || i == 13 || i == 18 || i == 23 }

  /** `isValidUUID`: the pattern `^[0-9a-f]{8}-[0-9a-f]{4}-[0-9a-f]{4}-[0-9a-f]{4}-[0-9a-f]{12}$/i`, position by position. */
  predicate IsValidUuid(s: string)
  {
    |s| == 36 && forall i :: 0 <= i < 36 ==> if IsDashPosition(i) then s[i] == '-' else IsHexDigit(s[i])
  }

  predicate AllHex(s: string) { forall i :: 0 <= i < |s| ==> IsHexDigit(s[i]) }

  /** Five hex groups of 8, 4, 4, 4 and 12 digits. */
  predicate UuidGroups(g: seq<string>)
  {
    |g| == 5 && |g[0]| == 8 && |g[1]| == 4 && |g[2]| == 4 && |g[3]| == 4 && |g[4]| == 12
    && AllHex(g[0]) && AllHex(g[1]) && AllHex(g[2]) && AllHex(g[3]) && AllHex(g[4])
  }

  /** Splitting the part of `s` from `from` on: a dash at `i` closes the first piece. */
  lemma SplitAtDash(s: string, from: nat, i: nat)
    requires from <= i < |s| && s[i] == '-' && '-' !in s[from..i]
    ensures Text.Split(s[from..], '-') == [s[from..i]] + Text.Split(s[i + 1..], '-')
  {
    assert s[from..] == s[from..i] + ['-'] + s[i + 1..];
    Text.SplitAfterPiece(s[from..i], '-', s[i + 1..]);
  }

  lemma HexSlice(s: string, a: nat, b: nat)
    requires a <= b <= |s| && forall j :: a <= j < b ==> IsHexDigit(s[j])
    ensures AllHex(s[a..b]) && '-' !in s[a..b]
  {
    assert forall j :: 0 <= j < b - a ==> s[a..b][j] == s[a + j];
  }

  /** The four dashes and the five hex groups between them. */
  lemma UuidLayout(s: string)
    requires IsValidUuid(s)
    ensures s[8] == '-' && s[13] == '-' && s[18] == '-' && s[23] == '-'
    ensures AllHex(s[0..8]) && AllHex(s[9..13]) && AllHex(s[14..18]) && AllHex(s[19..23]) && AllHex(s[24..36])
    ensures '-' !in s[0..8] && '-' !in s[9..13] && '-' !in s[14..18] && '-' !in s[19..23] && '-' !in s[24..36]
  {
    HexSlice(s, 0, 8);
    HexSlice(s, 9, 13);
    HexSlice(s, 14, 18);
    HexSlice(s, 19, 23);
    HexSlice(s, 24, 36);
  }

  lemma SplitLastGroup(s: string, from: nat)
    requires from <= |s| && '-' !in s[from..]
    ensures Text.Split(s[from..], '-') == [s[from..]]
  {
    Text.SplitWithout(s[from..], '-');
  }

  /** Four dashes at the UUID positions, and none between them, give five pieces. */
  lemma SplitAtUuidDashes(s: string)
    requires |s| == 36 && s[8] == '-' && s[13] == '-' && s[18] == '-' && s[23] == '-'
    requires '-' !in s[0..8] && '-' !in s[9..13] && '-' !in s[14..18] && '-' !in s[19..23] && '-' !in s[24..]
    ensures Text.Split(s, '-') == [s[0..8], s[9..13], s[14..18], s[19..23], s[24..]]
  {
    var g4, g3, g2, g1, g0 := s[24..], s[19..23], s[14..18], s[9..13], s[0..8];
    SplitLastGroup(s, 24);
    var p3 := Text.Split(s[19..], '-');
    SplitAtDash(s, 19, 23);
    assert p3 == [g3, g4];
    var p2 := Text.Split(s[14..], '-');
    SplitAtDash(s, 14, 18);
    assert p2 == [g2] + p3;
    var p1 := Text.Split(s[9..], '-');
    SplitAtDash(s, 9, 13);
    assert p1 == [g1] + p2;
    SplitAtDash(s, 0, 8);
    assert s[0..] == s;
    assert Text.Split(s, '-') == [g0] + p1;
  }

  /** A valid UUID splits on `-` into its five groups. */
  lemma UuidSplitsIntoGroups(s: string)
    requires IsValidUuid(s)
    ensures UuidGroups(Text.Split(s, '-'))
  {
    UuidLayout(s);
    assert s[24..] == s[24..36];
    SplitAtUuidDashes(s);
  }

  /** Five hex groups of the right sizes joined by `-` make a valid UUID. */
  lemma GroupsMakeUuid(g: seq<string>)
    requires UuidGroups(g)
    ensures IsValidUuid(Text.Join(g, "-"))
  {
    var j4 := Text.Join(g[4..], "-");
    assert j4 == g[4];
    var j3 := Text.Join(g[3..], "-");
    assert g[3..][1..] == g[4..];
    assert j3 == g[3] + "-" + j4;
    var j2 := Text.Join(g[2..], "-");
    assert g[2..][1..] == g[3..];
    assert j2 == g[2] + "-" + j3;
    var j1 := Text.Join(g[1..], "-");
    assert g[1..][1..] == g[2..];
    assert j1 == g[1] + "-" + j2;
    var s := Text.Join(g, "-");
    assert s == g[0] + "-" + j1;
    forall i | 0 <= i < 36 ensures if IsDashPosition(i) then s[i] == '-' else IsHexDigit(s[i]) {
      if i < 8 { assert s[i] == g[0][i]; }
      else if 9 <= i < 13 { assert s[i] == g[1][i - 9]; }
      else if 14 <= i < 18 { assert s[i] == g[2][i - 14]; }
      else if 19 <= i < 23 { assert s[i] == g[3][i - 19]; }
      else if 24 <= i { assert s[i] == g[4][i - 24]; }
    }
  }

  /** Case does not matter. */
  lemma UuidIgnoresCase(s: string)
    ensures IsValidUuid(Text.Lower(s)) <==> IsValidUuid(s)
  {
    var l := Text.Lower(s);
    assert |l| == |s|;
    assert forall i :: 0 <= i < |s| ==> l[i] == Text.LowerChar(s[i]);
  }

  // ---------------------------------------------------------------- chat messages

  /** `!data || typeof data !== 'object'` fails; arrays pass. */
  predicate IsObjectInput(v: JsValue.Value) { JsValue.Truthy(v) && JsValue.IsObjectType(v) }

  const RootIssue: Issue := Issue(["root"], "Input must be an object")
  const MaxContent: nat := 4000

  datatype ChatMessage = ChatMessage(content: string, guid: JsValue.Value, message: JsValue.Value)

  /** `obj.content || obj.message`. */
  function ContentOf(data: JsValue.Value): JsValue.Value
  {
    JsValue.Or(JsValue.Get(data, "content"), JsValue.Get(data, "message"))
  }

  function ContentIssues(content: JsValue.Value): seq<Issue>
  {
    if !content.Str? then [Issue(["content"], "Content must be a string")]
    else if |Text.Trim(content.s)| == 0 then [Issue(["content"], "Content cannot be empty")]
    else if |content.s| > MaxContent then [Issue(["content"], "Content must be less than 4000 characters")]
    else []
  }

  lemma ContentIssuesEmpty(content: JsValue.Value)
    ensures ContentIssues(content) == [] <==>
      content.Str? && Text.Trim(content.s) != "" && |content.s| <= MaxContent
  {
  }

  /** A GUID is checked only when it is a non-empty string. */
  function GuidIssues(guid: JsValue.Value): seq<Issue>
  {
    if JsValue.Truthy(guid) && guid.Str? && !IsValidUuid(guid.s) then [Issue(["guid"], "Invalid GUID format")] else []
  }

  /** `validateChatMessage`. */
  function ValidateChatMessage(data: JsValue.Value): (r: Result<ChatMessage, seq<Issue>>)
    ensures !IsObjectInput(data) ==> r == Failure([RootIssue])
    ensures r.Failure? ==> |r.error| > 0
    ensures r.Success? <==>
      IsObjectInput(data)
      && ContentOf(data).Str? && Text.Trim(ContentOf(data).s) != "" && |ContentOf(data).s| <= MaxContent
      && (JsValue.Get(data, "guid").Str? && JsValue.Get(data, "guid").s != "" ==> IsValidUuid(JsValue.Get(data, "guid").s))
    ensures r.Success? ==>
      r.value.content == Text.Trim(ContentOf(data).s) && 0 < |r.value.content| <= MaxContent
      && r.value.guid == JsValue.Get(data, "guid") && r.value.message == JsValue.Get(data, "message")
  {
    if !IsObjectInput(data) then Failure([RootIssue])
    else
      var content := ContentOf(data);
      var issues := ContentIssues(content) + GuidIssues(JsValue.Get(data, "guid"));
      ContentIssuesEmpty(content);
      assert |issues| == 0 <==> ContentIssues(content) == [] && GuidIssues(JsValue.Get(data, "guid")) == [];
      if |issues| > 0 then Failure(issues)
      else
        Text.TrimIsInnerPiece(content.s);
        Success(ChatMessage(Text.Trim(content.s), JsValue.Get(data, "guid"), JsValue.Get(data, "message")))
  }

  /** `validateGuid`: the string itself when it is a UUID. */
  function ValidateGuid(value: JsValue.Value): (r: Result<string, seq<Issue>>)
    ensures r.Success? <==> value.Str? && IsValidUuid(value.s)
    ensures r.Success? ==> r.value == value.s
    ensures r.Failure? ==> |r.error| == 1 && r.error[0].path == ["guid"]
  {
    if !value.Str? then Failure([Issue(["guid"], "GUID must be a string")])
    else if !IsValidUuid(value.s) then Failure([Issue(["guid"], "Invalid GUID format")])
    else Success(value.s)
  }

  // ---------------------------------------------------------------- conversations

  const Roles: seq<string> := ["user", "assistant", "system"]
  const MessageContentIssue: string := "Message content must be a string under 4000 characters"
  const MessageRoleIssue: string := "Message role must be user, assistant, or system"
  const MessageObjectIssue: string := "Message must be an object"

  /** The issues one element of `messages` raises; `index` is its position. */
  function MessageIssues(index: nat, msg: JsValue.Value): seq<Issue>
  {
    var at := ["messages", Text.NatToString(index)];
    if !IsObjectInput(msg) then [Issue(at, MessageObjectIssue)]
    else
      var content := JsValue.Get(msg, "content");
      var role := JsValue.Get(msg, "role");
      (if !content.Str? || |content.s| > MaxContent then [Issue(at + ["content"], MessageContentIssue)] else [])
      + (if !role.Str? || role.s !in Roles then [Issue(at + ["role"], MessageRoleIssue)] else [])
  }

  /** The `forEach` over the messages. */
  function MessagesIssues(msgs: seq<JsValue.Value>): seq<Issue>
  {
    if |msgs| == 0 then []
    else MessagesIssues(msgs[..|msgs| - 1]) + MessageIssues(|msgs| - 1, msgs[|msgs| - 1])
  }

  /** A text field that may be absent but, when present, is a string of bounded length. */
  function OptionalTextIssues(v: JsValue.Value, field: string, max: nat, notString: string, tooLong: string): seq<Issue>
  {
    if v.Undefined? then []
    else if !v.Str? then [Issue([field], notString)]
    else if |v.s| > max then [Issue([field], tooLong)]
    else []
  }

  /** The issues of `validateConversation` in the order it records them. */
  function ConversationIssues(data: JsValue.Value): seq<Issue>
  {
    var messages := JsValue.Get(data, "messages");
    OptionalTextIssues(JsValue.Get(data, "title"), "title", 150, "Title must be a string",
                       "Title must be less than 150 characters")
    + OptionalTextIssues(JsValue.Get(data, "description"), "description", 1000, "Description must be a string",
                         "Description must be less than 1000 characters")
    + (if messages.Undefined? then []
       else if !messages.Arr? then [Issue(["messages"], "Messages must be an array")]
       else MessagesIssues(messages.items))
  }

  datatype Conversation = Conversation(title: JsValue.Value, description: JsValue.Value, messages: JsValue.Value)

  function ConversationResult(data: JsValue.Value): Result<Conversation, seq<Issue>>
  {
    if !IsObjectInput(data) then Failure([RootIssue])
    else
      var issues := ConversationIssues(data);
      if |issues| > 0 then Failure(issues)
      else Success(Conversation(JsValue.Get(data, "title"), JsValue.Get(data, "description"), JsValue.Get(data, "messages")))
  }

  /** What a well-formed message is. */
  predicate MessageOk(msg: JsValue.Value)
  {
    IsObjectInput(msg)
    && JsValue.Get(msg, "content").Str? && |JsValue.Get(msg, "content").s| <= MaxContent
    && JsValue.Get(msg, "role").Str? && JsValue.Get(msg, "role").s in Roles
  }

  predicate OptionalTextOk(v: JsValue.Value, max: nat) { v.Undefined? || (v.Str? && |v.s| <= max) }

  /** What a well-formed conversation is. */
  predicate ConversationOk(data: JsValue.Value)
  {
    var messages := JsValue.Get(data, "messages");
    IsObjectInput(data)
    && OptionalTextOk(JsValue.Get(data, "title"), 150)
    && OptionalTextOk(JsValue.Get(data, "description"), 1000)
    && (messages.Undefined? || (messages.Arr? && forall i :: 0 <= i < |messages.items| ==> MessageOk(messages.items[i])))
  }

  lemma MessageIssuesEmpty(index: nat, msg: JsValue.Value)
    ensures MessageIssues(index, msg) == [] <==> MessageOk(msg)
  {
  }

  /** Every issue of a message is filed under that message's index. */
  lemma MessageIssuesPaths(index: nat, msg: JsValue.Value)
    ensures forall iss :: iss in MessageIssues(index, msg) ==>
      |iss.path| >= 2 && iss.path[0] == "messages" && iss.path[1] == Text.NatToString(index)
  {
  }

  lemma {:induction false} MessagesIssuesEmpty(msgs: seq<JsValue.Value>)
    ensures MessagesIssues(msgs) == [] <==> forall i :: 0 <= i < |msgs| ==> MessageOk(msgs[i])
  {
    if MessagesIssues(msgs) == [] {
      MessagesIssuesEmptyOk(msgs);
    } else {
      MessagesIssuesBad(msgs);
    }
  }

  lemma MessagesIssuesEmptyOk(msgs: seq<JsValue.Value>)
    requires MessagesIssues(msgs) == []
    ensures forall i :: 0 <= i < |msgs| ==> MessageOk(msgs[i])
  {
    forall i | 0 <= i < |msgs| ensures MessageOk(msgs[i]) {
      MessageWithoutIssues(msgs, i);
    }
  }

  lemma {:induction false} MessageWithoutIssues(msgs: seq<JsValue.Value>, i: nat)
    requires i < |msgs| && MessagesIssues(msgs) == []
    ensures MessageOk(msgs[i])
  {
    var n := |msgs| - 1;
    var init := msgs[..n];
    assert MessagesIssues(msgs) == MessagesIssues(init) + MessageIssues(n, msgs[n]);
    if i == n {
      MessageIssuesEmpty(n, msgs[n]);
    } else {
      MessageWithoutIssues(init, i);
      assert init[i] == msgs[i];
    }
  }

  lemma {:induction false} MessagesIssuesBad(msgs: seq<JsValue.Value>)
    requires MessagesIssues(msgs) != []
    ensures exists i :: 0 <= i < |msgs| && !MessageOk(msgs[i])
  {
    var n := |msgs| - 1;
    var init := msgs[..n];
    assert MessagesIssues(msgs) == MessagesIssues(init) + MessageIssues(n, msgs[n]);
    if MessagesIssues(init) != [] {
      MessagesIssuesBad(init);
      var i :| 0 <= i < |init| && !MessageOk(init[i]);
      assert msgs[i] == init[i];
    } else {
      MessageIssuesEmpty(n, msgs[n]);
      assert !MessageOk(msgs[n]);
    }
  }

  /** A conversation is accepted exactly when it is well formed. */
  lemma ConversationAcceptsWellFormed(data: JsValue.Value)
    ensures ConversationResult(data).Success? <==> ConversationOk(data)
  {
    var messages := JsValue.Get(data, "messages");
    if messages.Arr? {
      MessagesIssuesEmpty(messages.items);
    }
  }

  /** The issues carrying message index `i` in their path are exactly that message's issues. */
  lemma {:induction false} MessagesIssuesAt(msgs: seq<JsValue.Value>, i: nat)
    requires i < |msgs|
    ensures forall iss :: iss in MessagesIssues(msgs) && |iss.path| >= 2 && iss.path[1] == Text.NatToString(i)
                          <==> iss in MessageIssues(i, msgs[i])
  {
    var n := |msgs| - 1;
    var init := msgs[..n];
    MessageIssuesPaths(n, msgs[n]);
    forall iss | iss in MessageIssues(n, msgs[n]) && |iss.path| >= 2 && iss.path[1] == Text.NatToString(i)
      ensures n == i
    {
      Text.NatToStringInjective(n, i);
    }
    if i < n {
      MessagesIssuesAt(init, i);
      assert init[i] == msgs[i];
    } else {
      MessagesIssuesIndices(init);
      Text.ParseNatToString(i);
    }
  }

  /** Every issue of the first `|msgs|` messages is filed under an index below `|msgs|`. */
  lemma {:induction false} MessagesIssuesIndices(msgs: seq<JsValue.Value>)
    ensures forall iss :: iss in MessagesIssues(msgs) ==>
      |iss.path| >= 2 && iss.path[0] == "messages"
      && Text.AllDigits(iss.path[1]) && Text.ParseDigits(iss.path[1]) < |msgs|
  {
    if |msgs| > 0 {
      var n := |msgs| - 1;
      MessagesIssuesIndices(msgs[..n]);
      MessageIssuesPaths(n, msgs[n]);
      Text.ParseNatToString(n);
    }
  }

  /** The `forEach` over `messages`, collecting each element's issues in turn. */
  method CheckMessages(items: seq<JsValue.Value>) returns (issues: seq<Issue>)
    ensures issues == MessagesIssues(items)
  {
    issues := [];
    var index := 0;
    while index < |items|
      invariant 0 <= index <= |items|
      invariant issues == MessagesIssues(items[..index])
    {
      assert items[..index + 1][..index] == items[..index];
      issues := issues + MessageIssues(index, items[index]);
      index := index + 1;
    }
    assert items[..index] == items;
  }

  /**
   * `validateConversation`: the optional fields, then each message in turn,
   * recording every issue.
   */
  method ValidateConversation(data: JsValue.Value) returns (r: Result<Conversation, seq<Issue>>)
    ensures r == ConversationResult(data)
  {
    if !IsObjectInput(data) {
      return Failure([RootIssue]);
    }
    var issues := OptionalTextIssues(JsValue.Get(data, "title"), "title", 150, "Title must be a string",
                                     "Title must be less than 150 characters");
    issues := issues + OptionalTextIssues(JsValue.Get(data, "description"), "description", 1000,
                                          "Description must be a string", "Description must be less than 1000 characters");
    var messages := JsValue.Get(data, "messages");
    if !messages.Undefined? {
      if !messages.Arr? {
        issues := issues + [Issue(["messages"], "Messages must be an array")];
      } else {
        var found := CheckMessages(messages.items);
        issues := issues + found;
      }
    }
    assert issues == ConversationIssues(data);
    if |issues| > 0 {
      return Failure(issues);
    }
    return Success(Conversation(JsValue.Get(data, "title"), JsValue.Get(data, "description"), messages));
  }

  // ---------------------------------------------------------------- uploads

  /** `[\w,\s-]`. */
  predicate IsNameChar(c: char) { Text.IsWordChar(c) || c == ',' || Text.IsSpace(c) || c == '-' }

  /**
   * `^[\w,\s-]+\.[A-Za-z]{3,4}$`. Neither part may hold a dot, so the dot the
   * pattern matches is the first one.
   */
  predicate FilenameMatches(s: string)
  {
    var i := Text.IndexOfChar(s, '.');
    1 <= i && i + 4 <= |s| <= i + 5
    && (forall j :: 0 <= j < i ==> IsNameChar(s[j]))
    && (forall j :: i < j < |s| ==> Text.IsAsciiLetter(s[j]))
  }

  /** Every name of allowed characters with an extension of three or four letters is accepted. */
  lemma FilenameOfParts(name: string, ext: string)
    requires |name| >= 1 && forall j :: 0 <= j < |name| ==> IsNameChar(name[j])
    requires 3 <= |ext| <= 4 && forall j :: 0 <= j < |ext| ==> Text.IsAsciiLetter(ext[j])
    ensures FilenameMatches(name + "." + ext)
  {
    var s := name + "." + ext;
    assert '.' !in name by {
      forall j | 0 <= j < |name| ensures name[j] != '.' {
        assert IsNameChar(name[j]);
      }
    }
    Text.IndexOfCharAfter(name, '.', ext);
    assert s == name + ['.'] + ext;
    assert forall j :: 0 <= j < |name| ==> s[j] == name[j];
    assert forall j :: |name| < j < |s| ==> s[j] == ext[j - |name| - 1];
  }

  lemma FilenameAcceptsReport()
    ensures FilenameMatches("report.pdf")
  {
    FilenameOfParts("report", "pdf");
    assert "report" + "." + "pdf" == "report.pdf";
  }

  /** A second dot is refused: the part after the first dot holds a dot, not only letters. */
  lemma FilenameRefusesTwoDots(s: string, i: nat, j: nat)
    requires i < j < |s| && s[i] == '.' && s[j] == '.'
    ensures !FilenameMatches(s)
  {
    Text.IndexOfCharFirst(s, '.');
  }

  lemma FilenameRefusesDoubleExtension()
    ensures !FilenameMatches("archive.tar.gz")
  {
    FilenameRefusesTwoDots("archive.tar.gz", 7, 11);
  }

  /** A dot file and a relative path are refused: the name before the first dot is empty. */
  lemma FilenameRefusesEmptyName()
    ensures !FilenameMatches(".env") && !FilenameMatches("../etc/passwd")
  {
    assert Text.IndexOfChar(".env", '.') == 0;
    assert Text.IndexOfChar("../etc/passwd", '.') == 0;
  }

  const AllowedMimeTypes: seq<string> := ["image/png", "image/jpeg", "application/pdf"]
  const MaxUploadSize: real := 5.0 * 1024.0 * 1024.0

  datatype Upload = Upload(filename: string, mimeType: JsValue.Value, size: JsValue.Num)

  /** `obj.size > 5 * 1024 * 1024` for a number: false for NaN and negative infinity. */
  predicate TooLarge(n: JsValue.Num)
  {
    match n
    case Finite(x) => x > MaxUploadSize
    case PosInf => true
    case _ => false
  }

  function UploadIssues(data: JsValue.Value): seq<Issue>
  {
    var filename := JsValue.Get(data, "filename");
    var mime := JsValue.Get(data, "mimeType");
    var size := JsValue.Get(data, "size");
    (if !filename.Str? then [Issue(["filename"], "Filename must be a string")]
     else if !FilenameMatches(filename.s) then [Issue(["filename"], "Invalid filename format")]
     else [])
    + (if !mime.Undefined? && (!mime.Str? || mime.s !in AllowedMimeTypes) then [Issue(["mimeType"], "Invalid MIME type")] else [])
    + (if !size.Number? then [Issue(["size"], "Size must be a number")]
       else if TooLarge(size.n) then [Issue(["size"], "File size must be less than 5 MB")]
       else [])
  }

  /** `validateUpload`. */
  function ValidateUpload(data: JsValue.Value): (r: Result<Upload, seq<Issue>>)
    ensures !IsObjectInput(data) ==> r == Failure([RootIssue])
    ensures r.Failure? ==> |r.error| > 0
    ensures r.Success? <==>
      var filename := JsValue.Get(data, "filename");
      var mime := JsValue.Get(data, "mimeType");
      var size := JsValue.Get(data, "size");
      IsObjectInput(data)
      && filename.Str? && FilenameMatches(filename.s)
      && (mime.Undefined? || (mime.Str? && mime.s in AllowedMimeTypes))
      && size.Number? && !TooLarge(size.n)
    ensures r.Success? ==> r.value.filename == JsValue.Get(data, "filename").s && r.value.size == JsValue.Get(data, "size").n
  {
    if !IsObjectInput(data) then Failure([RootIssue])
    else
      var issues := UploadIssues(data);
      if |issues| > 0 then Failure(issues)
      else Success(Upload(JsValue.Get(data, "filename").s, JsValue.Get(data, "mimeType"), JsValue.Get(data, "size").n))
  }

  /** The size check is only an upper bound: a negative or not-a-number size passes. */
  lemma UploadSizeOnlyBoundedAbove()
    ensures !TooLarge(JsValue.Finite(-1.0)) && !TooLarge(JsValue.NaN)
    ensures TooLarge(JsValue.PosInf) && !TooLarge(JsValue.Finite(MaxUploadSize))
  {
  }
}
