/**
  The two record-keeping endpoints of the backend: the callback request,
  saved as one text file per caller, and the issue log, one comma-separated line per
  logged issue. Only the values are modelled; whether the file system
  accepts the write is a parameter.
 */
module Backend {
  import opened Text

  /**
    A JSON value as Python holds it after parsing the request body: a `str`,
    or any other value (null, number, boolean, list, object) together with
    the text `str()` gives for it ("None" for null).
   */
  datatype JValue = JStr(s: string) | JNonStr(pyText: string)

  /** The parsed request body. */
  type JObject = map<string, JValue>

  /** `data.get(key, default)`. */
  function Get(data: JObject, key: string, default: string): JValue {
    if key in data then data[key] else JStr(default)
  }

  /** `f"{v}"`. */
  function Format(v: JValue): string {
    match v
    case JStr(s) => s
    case JNonStr(t) => t
  }

  const CallbackDir: string := "callback_requests"
  const DefaultName: string := "Anonymous"
  const DefaultPhone: string := "Unknown"
  const DefaultIssue: string := "No issue described"
  const DefaultIssueType: string := "Uncategorized"
  const SavedMessage: string := "\U{1F4DE} Callback request saved successfully."
  const LogPath: string := "logs/known_issues.csv"
  const LoggedMessage: string := "Logged"

  // ---------------------------------------------------------------------------
  // request_callback
  // ---------------------------------------------------------------------------

  /** `name.replace(' ', '_')`. */
  function NamePart(name: string): string {
    Replace(name, ' ', "_")
  }

  /** `phone.replace('+', '')`. */
  function PhonePart(phone: string): string {
    Replace(phone, '+', "")
  }

  /** `f"{name.replace(' ', '_')}_{phone.replace('+','')}.txt"`. */
  function FileName(name: string, phone: string): string {
    NamePart(name) + "_" + PhonePart(phone) + ".txt"
  }

  /** `os.path.join(dir, f)` on POSIX: an absolute `f` discards the directory. */
  function JoinPath(dir: string, f: string): string {
    if |f| > 0 && f[0] == '/' then f
    else if dir == [] || dir[|dir| - 1] == '/' then dir + f
    else dir + "/" + f
  }

  /** The text written to the callback file. */
  function Body(name: string, phone: string, issue: string): string {
    "Name: " + name + "\nPhone: " + phone + "\nIssue: " + issue + "\n"
  }

  datatype CallbackOutcome =
    | Saved(path: string, body: string, message: string)
    | CallbackError  // status 500 with the exception's text

  /**
    `request_callback`: fill in the defaults for absent fields, build the file
    name and the body, and write the file. A name or phone that is not a
    string makes `replace` raise, which the handler turns into an error, as
    it does a failed write.
   */
  function RequestCallback(data: JObject, writeSucceeds: bool): CallbackOutcome {
    var name := Get(data, "name", DefaultName);
    var phone := Get(data, "phone", DefaultPhone);
    var issue := Get(data, "issue", DefaultIssue);
    if !name.JStr? || !phone.JStr? || !writeSucceeds then CallbackError
    else Saved(JoinPath(CallbackDir, FileName(name.s, phone.s)),
               Body(name.s, phone.s, Format(issue)),
               SavedMessage)
  }

  /**
    Absent fields take their defaults: the file is
    "callback_requests/Anonymous_Unknown.txt" and the issue line reads
    "No issue described".
   */
  lemma CallbackDefaults(data: JObject)
    requires "name" !in data && "phone" !in data && "issue" !in data
    ensures RequestCallback(data, true) ==
      Saved(CallbackDir + "/" + DefaultName + "_" + DefaultPhone + ".txt",
            Body(DefaultName, DefaultPhone, DefaultIssue),
            SavedMessage)
  {
    assert Get(data, "name", DefaultName) == JStr(DefaultName);
    assert Get(data, "phone", DefaultPhone) == JStr(DefaultPhone);
    DefaultFileName();
    DefaultPath();
  }

  lemma DefaultPath()
    ensures JoinPath(CallbackDir, DefaultName + "_" + DefaultPhone + ".txt") ==
              CallbackDir + "/" + DefaultName + "_" + DefaultPhone + ".txt"
  {
    var f := DefaultName + "_" + DefaultPhone + ".txt";
    assert f[0] == 'A';
    assert CallbackDir[|CallbackDir| - 1] == 's';
    JoinBelow(CallbackDir, f);
  }

  lemma JoinBelow(dir: string, f: string)
    requires |dir| > 0 && dir[|dir| - 1] != '/'
    requires |f| > 0 && f[0] != '/'
    ensures JoinPath(dir, f) == dir + "/" + f
  {
  }

  lemma DefaultFileName()
    ensures FileName(DefaultName, DefaultPhone) == DefaultName + "_" + DefaultPhone + ".txt"
  {
    DefaultNamePart();
    DefaultPhonePart();
  }

  lemma DefaultNamePart()
    ensures NamePart(DefaultName) == DefaultName
  {
    ReplaceAbsent(DefaultName, ' ', "_");
  }

  lemma DefaultPhonePart()
    ensures PhonePart(DefaultPhone) == DefaultPhone
  {
    ReplaceAbsent(DefaultPhone, '+', "");
  }

  /** A successful save always answers with the fixed message. */
  lemma SavedMessageIsFixed(data: JObject, writeSucceeds: bool)
    ensures RequestCallback(data, writeSucceeds).Saved? ==>
              RequestCallback(data, writeSucceeds).message == SavedMessage
    ensures RequestCallback(data, writeSucceeds).Saved? <==>
              (writeSucceeds && Get(data, "name", DefaultName).JStr? && Get(data, "phone", DefaultPhone).JStr?)
  {
  }

  /**
    The file name is the name part, an underscore, the phone part and
    ".txt"; the name part has no spaces and keeps everything else in place;
    the phone part has no plus signs and keeps every other character, in
    order.
   */
  lemma FileNameShape(name: string, phone: string)
    ensures var f := FileName(name, phone);
      && f == NamePart(name) + "_" + PhonePart(phone) + ".txt"
      && f[|f| - 4..] == ".txt"
      && ' ' !in NamePart(name)
      && |NamePart(name)| == |name|
      && (forall i :: 0 <= i < |name| ==> NamePart(name)[i] == if name[i] == ' ' then '_' else name[i])
      && '+' !in PhonePart(phone)
      && multiset(PhonePart(phone)) == multiset(phone)[('+') := 0]
      && (forall i :: 0 <= i < |phone| ==> PhonePart([phone[i]]) == if phone[i] == '+' then [] else [phone[i]])
      && (forall k :: 0 <= k <= |phone| ==> PhonePart(phone) == PhonePart(phone[..k]) + PhonePart(phone[k..]))
  {
    ReplaceRemovesTarget(name, ' ', "_");
    ReplaceByChar(name, ' ', '_');
    ReplaceRemovesTarget(phone, '+', "");
    ReplaceByEmpty(phone, '+');
  }

  /** Nothing else is sanitised: a slash in the name and a space in the phone survive. */
  lemma OtherCharactersSurvive()
    ensures NamePart("a/b") == "a/b"
    ensures PhonePart("+1 555") == "1 555"
  {
    ReplaceAbsent("a/b", ' ', "_");
    PlusDropped();
  }

  lemma PlusDropped()
    ensures PhonePart("+1 555") == "1 555"
  {
    var p := "+1 555";
    assert p[0] == '+' && p[1..] == "1 555";
    ReplaceAbsent("1 555", '+', "");
  }

  /**
    A file name that starts with a slash (a name starting with '/') is an
    absolute path, so the file is written outside the callback directory.
   */
  lemma LeadingSlashLeavesDirectory(name: string, phone: string)
    requires |name| > 0 && name[0] == '/'
    ensures JoinPath(CallbackDir, FileName(name, phone)) == FileName(name, phone)
  {
    ReplaceByChar(name, ' ', '_');
  }

  /** Any other file name is appended to the callback directory after a slash. */
  lemma RelativeNameIsJoined(name: string, phone: string)
    requires |name| == 0 || name[0] != '/'
    ensures JoinPath(CallbackDir, FileName(name, phone)) == CallbackDir + "/" + FileName(name, phone)
  {
    ReplaceByChar(name, ' ', '_');
  }

  /**
    The join does not resolve `..`: a name starting with "../" gives
    "callback_requests/../" followed by the rest of the file name, which is
    resolved from the parent of the callback directory and so can land
    outside it.
   */
  lemma ParentNameEscapes(name: string, phone: string)
    requires |name| >= 3 && name[..3] == "../"
    ensures var f := FileName(name, phone);
      && f[..3] == "../"
      && JoinPath(CallbackDir, f) == CallbackDir + "/../" + f[3..]
  {
    ReplaceByChar(name, ' ', '_');
    var f := FileName(name, phone);
    assert NamePart(name)[..3] == name[..3] by {
      assert name[0] == '.' && name[1] == '.' && name[2] == '/';
    }
    assert f[..3] == "../";
    assert f == "../" + f[3..];
  }

  /**
    The body is three labelled lines; when no field holds a line break,
    reading it back line by line gives the three fields again.
   */
  lemma BodyLines(name: string, phone: string, issue: string)
    requires '\n' !in name && '\n' !in phone && '\n' !in issue
    ensures Split(Body(name, phone, issue), '\n') ==
              ["Name: " + name, "Phone: " + phone, "Issue: " + issue, ""]
  {
    var l1, l2, l3 := "Name: " + name, "Phone: " + phone, "Issue: " + issue;
    assert '\n' !in l1 && '\n' !in l2 && '\n' !in l3;
    assert Body(name, phone, issue) == l1 + ['\n'] + (l2 + ['\n'] + (l3 + ['\n'] + []));
    SplitJoin(l3, '\n', []);
    SplitJoin(l2, '\n', l3 + ['\n'] + []);
    SplitJoin(l1, '\n', l2 + ['\n'] + (l3 + ['\n'] + []));
  }

  // ---------------------------------------------------------------------------
  // log_issue
  // ---------------------------------------------------------------------------

  datatype LogOutcome =
    | Appended(path: string, line: string, message: string)
    | LogError  // status 500 with the exception's text

  /** The line appended to the issue log: no quoting and no escaping. */
  function CsvLine(issueType: string, summary: string): string {
    issueType + "," + summary + "\n"
  }

  /** `log_issue`: fill in the defaults, then append one line to the issue log. */
  function LogIssue(data: JObject, writeSucceeds: bool): LogOutcome {
    var issueType := Get(data, "issue_type", DefaultIssueType);
    var summary := Get(data, "summary", "");
    if !writeSucceeds then LogError
    else Appended(LogPath, CsvLine(Format(issueType), Format(summary)), LoggedMessage)
  }

  /** With both fields absent the line is "Uncategorized," and a line break. */
  lemma LogDefaults()
    ensures LogIssue(map[], true) == Appended(LogPath, "Uncategorized,\n", LoggedMessage)
  {
  }

  /**
    Split on commas, the line's first field is the issue type (when it has
    no comma) and the rest are the summary's comma-separated pieces: a
    summary with `k` commas yields `k + 2` fields, not two.
   */
  lemma CsvFields(issueType: string, summary: string)
    requires ',' !in issueType
    ensures var line := CsvLine(issueType, summary);
      && line[|line| - 1] == '\n'
      && Split(line[..|line| - 1], ',') == [issueType] + Split(summary, ',')
      && |Split(line[..|line| - 1], ',')| == Count(summary, ',') + 2
  {
    var line := CsvLine(issueType, summary);
    assert line[..|line| - 1] == issueType + [','] + summary;
    SplitJoin(issueType, ',', summary);
    SplitCount(summary, ',');
  }

}
