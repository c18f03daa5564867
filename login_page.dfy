/** The sign-in page: it decides whether the typed login is an e-mail
    address or a user name, where to go once signed in, which toasts a
    failed sign-in shows, and when a field is flagged as invalid. */
module LoginPage {
  import opened Json
  import opened Platform
  import AuthSlice

  // ---------------------------------------------------------------------
  // E-mail classification: /^[a-zA-Z0-9._%+-]+@[a-zA-Z0-9.-]+\.[a-zA-Z]{2,}$/

  predicate Letter(c: char)
  {
    ('a' <= c <= 'z') || ('A' <= c <= 'Z')
  }

  predicate Alnum(c: char)
  {
    Letter(c) || ('0' <= c <= '9')
  }

  /** Characters allowed before the `@`. */
  predicate LocalChar(c: char)
  {
    Alnum(c) || c == '.' || c == '_' || c == '%' || c == '+' || c == '-'
  }

  /** Characters allowed after the `@`. */
  predicate DomainChar(c: char)
  {
    Alnum(c) || c == '.' || c == '-'
  }

  predicate AllLocal(s: string)
  {
    forall i :: 0 <= i < |s| ==> LocalChar(s[i])
  }

  predicate AllDomain(s: string)
  {
    forall i :: 0 <= i < |s| ==> DomainChar(s[i])
  }

  predicate AllLetters(s: string)
  {
    forall i :: 0 <= i < |s| ==> Letter(s[i])
  }

  /** `s` splits at an `@` (index `a`) and a `.` (index `d`) as the pattern
      asks: a non-empty local part, a non-empty domain, and at least two
      letters after the dot. */
  ghost predicate EmailSplit(s: string, a: int, d: int)
  {
    && 0 < a && a + 1 < d && d + 3 <= |s|
    && AllLocal(s[..a]) && s[a] == '@'
    && AllDomain(s[a + 1..d]) && s[d] == '.'
    && AllLetters(s[d + 1..])
  }

  /** The language of the e-mail regular expression. */
  ghost predicate EmailPattern(s: string)
  {
    exists a, d :: EmailSplit(s, a, d)
  }

  /** The first index of `c` in `s`. */
  function IndexOf(s: string, c: char): (r: Option<nat>)
    ensures r.Some? ==> r.value < |s| && s[r.value] == c && forall j :: 0 <= j < r.value ==> s[j] != c
    ensures r.None? ==> forall j :: 0 <= j < |s| ==> s[j] != c
  {
    if s == [] then None
    else if s[0] == c then Some(0)
    else match IndexOf(s[1..], c)
      case None => None
      case Some(i) => Some(i + 1)
  }

  /** The last index of `c` in `s`. */
  function LastIndexOf(s: string, c: char): (r: Option<nat>)
    ensures r.Some? ==> r.value < |s| && s[r.value] == c && forall j :: r.value < j < |s| ==> s[j] != c
    ensures r.None? ==> forall j :: 0 <= j < |s| ==> s[j] != c
  {
    if s == [] then None
    else if s[|s| - 1] == c then Some(|s| - 1)
    else LastIndexOf(s[..|s| - 1], c)
  }

  /** `emailRegex.test(s)`, as a scan: the local part runs up to the first
      `@`; the domain runs to the end; its last dot must have something before
      it and at least two letters after it. */
  function IsEmail(s: string): bool
  {
    match IndexOf(s, '@')
    case None => false
    case Some(a) =>
      var domain := s[a + 1..];
      && a > 0 && AllLocal(s[..a]) && AllDomain(domain)
      && match LastIndexOf(domain, '.')
         case None => false
         case Some(d) => d > 0 && d + 3 <= |domain| && AllLetters(domain[d + 1..])
  }

  lemma IndexOfAt(s: string, c: char, k: nat)
    requires k < |s| && s[k] == c && forall j :: 0 <= j < k ==> s[j] != c
    ensures IndexOf(s, c) == Some(k)
  {
  }

  lemma LastIndexOfAt(s: string, c: char, k: nat)
    requires k < |s| && s[k] == c && forall j :: k < j < |s| ==> s[j] != c
    ensures LastIndexOf(s, c) == Some(k)
  {
  }

  /** What the scan accepts matches the regular expression. */
  lemma IsEmailSound(s: string)
    requires IsEmail(s)
    ensures EmailPattern(s)
  {
    var a := IndexOf(s, '@').value;
    var domain := s[a + 1..];
    var d := LastIndexOf(domain, '.').value;
    assert s[a + 1..a + 1 + d] == domain[..d];
    assert s[a + 1 + d + 1..] == domain[d + 1..];
    assert EmailSplit(s, a, a + 1 + d);
  }

  /** A valid local part holds no `@`, so the first `@` is the split's. */
  lemma AtOfSplit(s: string, a: int, d: int)
    requires EmailSplit(s, a, d)
    ensures IndexOf(s, '@') == Some(a)
  {
    forall j | 0 <= j < a
      ensures s[j] != '@'
    {
      assert s[j] == s[..a][j];
    }
    IndexOfAt(s, '@', a);
  }

  /** The domain after a split's `@` is all domain characters, and its last
      dot is the split's. */
  lemma DomainOfSplit(s: string, a: int, d: int)
    requires EmailSplit(s, a, d)
    ensures AllDomain(s[a + 1..])
    ensures LastIndexOf(s[a + 1..], '.') == Some(d - (a + 1))
    ensures s[a + 1..][d - a..] == s[d + 1..]
  {
    var domain := s[a + 1..];
    var dd := d - (a + 1);
    forall j | dd < j < |domain|
      ensures domain[j] != '.'
    {
      assert domain[j] == s[d + 1..][j - dd - 1];
    }
    LastIndexOfAt(domain, '.', dd);
    forall j | 0 <= j < |domain|
      ensures DomainChar(domain[j])
    {
      if j < dd {
        assert domain[j] == s[a + 1..d][j];
      } else if j > dd {
        assert domain[j] == s[d + 1..][j - dd - 1];
      }
    }
    assert domain[dd + 1..] == s[d + 1..];
  }

  /** Everything the regular expression matches, the scan accepts. */
  lemma IsEmailComplete(s: string, a: int, d: int)
    requires EmailSplit(s, a, d)
    ensures IsEmail(s)
  {
    AtOfSplit(s, a, d);
    DomainOfSplit(s, a, d);
  }

  /** The scan accepts exactly the strings of the regular expression. */
  lemma IsEmailCorrect(s: string)
    ensures IsEmail(s) <==> EmailPattern(s)
  {
    if IsEmail(s) {
      IsEmailSound(s);
    }
    if EmailPattern(s) {
      var a, d :| EmailSplit(s, a, d);
      IsEmailComplete(s, a, d);
    }
  }

  /** What is sent to the login endpoint: the login as `email` or as
      `username`, never both, plus the password. */
  datatype Credential = EmailCredential(email: string) | UsernameCredential(username: string)
  datatype CredentialPayload = CredentialPayload(credential: Credential, password: string)

  function MakePayload(cred: string, pwd: string): (p: CredentialPayload)
    ensures p.password == pwd
    ensures p.credential.EmailCredential? <==> EmailPattern(cred)
    ensures p.credential == EmailCredential(cred) || p.credential == UsernameCredential(cred)
  {
    IsEmailCorrect(cred);
    if IsEmail(cred) then CredentialPayload(EmailCredential(cred), pwd)
    else CredentialPayload(UsernameCredential(cred), pwd)
  }

  /** The JSON body of the login request. */
  function PayloadJson(p: CredentialPayload): Json
  {
    match p.credential
    case EmailCredential(e) => JObject(map["email" := JString(e), "password" := JString(p.password)])
    case UsernameCredential(u) => JObject(map["username" := JString(u), "password" := JString(p.password)])
  }

  /** The login request: a credentialed POST of the payload. */
  function LoginArgs(p: CredentialPayload): FetchArgs
  {
    FetchArgs("/api/v1/auth/login", "POST", Include, Some(PayloadJson(p)))
  }

  const DefaultLanding := "/user/games"

  // ---------------------------------------------------------------------
  // Redirect once signed in

  /** Where a signed-in user is sent: back where they came from, unless that
      is nowhere, the home page or the login page itself. */
  function PostLoginTarget(previousPath: string): (t: string)
    ensures t != "" && t != "/" && t != "/login"
    ensures t == previousPath || t == DefaultLanding
    ensures previousPath != "" && previousPath != "/" && previousPath != "/login" ==> t == previousPath
  {
    if previousPath != "" && previousPath != "/" && previousPath != "/login" then previousPath
    else DefaultLanding
  }

  /** The redirect effect: nothing while signed out. */
  function RedirectEffect(userInfo: Json, previousPath: string): seq<Event>
  {
    if Truthy(userInfo) then [Navigated(PostLoginTarget(previousPath))] else []
  }

  /** The redirect moves the user at most once, exactly when signed in, and
      never to the home page, the login page or nowhere; once a sign-in has
      stored the server's object as the credentials, it moves the user to the
      post-login target. */
  lemma RedirectAway(userInfo: Json, previousPath: string)
    ensures var es := RedirectEffect(userInfo, previousPath);
      && |es| <= 1
      && (es == [] <==> !Truthy(userInfo))
      && (forall e :: e in es ==> e.Navigated? && e.to != "" && e.to != "/" && e.to != "/login")
      && (userInfo.JObject? ==> es == [Navigated(PostLoginTarget(previousPath))])
  {
  }

  // ---------------------------------------------------------------------
  // Toasts for a failed sign-in

  const FieldNames := ["Username", "Email", "Password"]
  const GenericError := "An error occurred."

  predicate StartsWith(s: string, prefix: string)
  {
    |prefix| <= |s| && s[..|prefix|] == prefix
  }

  /** Some field name starts at the head of `s`. */
  predicate NameAtHead(s: string)
  {
    StartsWith(s, "Username") || StartsWith(s, "Email") || StartsWith(s, "Password")
  }

  /** `message.replace(/Username|Email|Password/g, field)`. */
  function ReplaceFieldNames(message: string, field: string): string
    decreases |message|
  {
    if message == [] then []
    else if StartsWith(message, "Username") then field + ReplaceFieldNames(message[8..], field)
    else if StartsWith(message, "Email") then field + ReplaceFieldNames(message[5..], field)
    else if StartsWith(message, "Password") then field + ReplaceFieldNames(message[8..], field)
    else [message[0]] + ReplaceFieldNames(message[1..], field)
  }

  /** A message that names no field is shown as it is. */
  lemma {:induction false} ReplaceWithoutNames(message: string, field: string)
    requires forall i :: 0 <= i < |message| ==> !NameAtHead(message[i..])
    ensures ReplaceFieldNames(message, field) == message
  {
    if message != [] {
      assert message[0..] == message;
      forall i | 0 <= i < |message[1..]|
        ensures !NameAtHead(message[1..][i..])
      {
        assert message[1..][i..] == message[i + 1..];
      }
      ReplaceWithoutNames(message[1..], field);
    }
  }

  /** Each field name, and a name followed by text, is rewritten to the field. */
  lemma ReplaceName(name: string, rest: string, field: string)
    requires name in FieldNames
    ensures ReplaceFieldNames(name + rest, field) == field + ReplaceFieldNames(rest, field)
  {
    var s := name + rest;
    assert s[..|name|] == name;
    assert s[|name|..] == rest;
    if name == "Username" {
      assert StartsWith(s, "Username");
    } else if name == "Email" {
      assert s[0] == 'E';
      assert StartsWith(s, "Email");
    } else {
      assert s[0] == 'P';
      assert StartsWith(s, "Password");
    }
  }

  /** The toasts shown so far, and whether a TypeError ended the handler. */
  datatype Toasts = Toasts(shown: seq<Json>, threw: bool)

  /** `error.data[field]` when it is a (truthy) array; otherwise nothing. */
  function FieldMessages(data: Json, field: string): seq<Json>
  {
    var v := Get(data, field);
    if Present(v) && v.value.JArray? then v.value.items else []
  }

  /** Some message is not a string (and has no `replace`). */
  predicate HasNonString(items: seq<Json>)
  {
    exists i :: 0 <= i < |items| && !items[i].JString?
  }

  /** One toast per message of a field, each with the field names replaced;
      a message that is not a string has no `replace` and throws. */
  function FormatMessages(items: seq<Json>, field: string): (t: Toasts)
    ensures t.threw <==> HasNonString(items)
    ensures !t.threw ==> |t.shown| == |items|
    ensures t.threw ==> |t.shown| < |items| && !items[|t.shown|].JString?
    ensures forall i :: 0 <= i < |t.shown| ==>
      items[i].JString? && t.shown[i] == JString(ReplaceFieldNames(items[i].s, field))
  {
    if items == [] then Toasts([], false)
    else
      var prev := FormatMessages(items[..|items| - 1], field);
      var last := items[|items| - 1];
      if prev.threw then prev
      else if last.JString? then Toasts(prev.shown + [JString(ReplaceFieldNames(last.s, field))], false)
      else Toasts(prev.shown, true)
  }

  /** The sum of the message counts of `fields`. */
  function MessageCount(data: Json, fields: seq<string>): (n: nat)
  {
    if fields == [] then 0
    else MessageCount(data, fields[..|fields| - 1]) + |FieldMessages(data, fields[|fields| - 1])|
  }

  /** The toasts of the fields, in order, until a message throws. */
  function FieldToasts(data: Json, fields: seq<string>): (t: Toasts)
    ensures !t.threw ==> |t.shown| == MessageCount(data, fields)
    ensures |t.shown| <= MessageCount(data, fields)
  {
    if fields == [] then Toasts([], false)
    else
      var prev := FieldToasts(data, fields[..|fields| - 1]);
      var field := fields[|fields| - 1];
      if prev.threw then prev
      else
        var more := FormatMessages(FieldMessages(data, field), field);
        Toasts(prev.shown + more.shown, more.threw)
  }

  /** The field loop throws exactly when some field has a message that is
      not a string. */
  lemma {:induction false} FieldToastsThrew(data: Json, fields: seq<string>)
    ensures FieldToasts(data, fields).threw <==>
      exists k :: 0 <= k < |fields| && HasNonString(FieldMessages(data, fields[k]))
  {
    if fields != [] {
      var pre := fields[..|fields| - 1];
      var last := fields[|fields| - 1];
      FieldToastsThrew(data, pre);
      FieldThrewStep(data, fields);
      var lastThrew := HasNonString(FieldMessages(data, last));
      var preThrew := exists k :: 0 <= k < |pre| && HasNonString(FieldMessages(data, pre[k]));
      assert FieldToasts(data, fields).threw == (preThrew || lastThrew);
      var anyThrew := exists k :: 0 <= k < |fields| && HasNonString(FieldMessages(data, fields[k]));
      if preThrew {
        var k :| 0 <= k < |pre| && HasNonString(FieldMessages(data, pre[k]));
        assert fields[k] == pre[k];
        assert anyThrew;
      }
      if lastThrew {
        assert HasNonString(FieldMessages(data, fields[|fields| - 1]));
        assert anyThrew;
      }
      if anyThrew {
        var k :| 0 <= k < |fields| && HasNonString(FieldMessages(data, fields[k]));
        if k < |pre| {
          assert fields[k] == pre[k];
          assert preThrew;
        } else {
          assert k == |fields| - 1 && fields[k] == last;
          assert lastThrew;
        }
      }
      assert anyThrew == (preThrew || lastThrew);
    }
  }

  /** One step of the field loop: it throws once an earlier field or the
      last field has a non-string message. */
  lemma FieldThrewStep(data: Json, fields: seq<string>)
    requires fields != []
    ensures FieldToasts(data, fields).threw ==
      (FieldToasts(data, fields[..|fields| - 1]).threw ||
       HasNonString(FieldMessages(data, fields[|fields| - 1])))
  {
    var more := FormatMessages(FieldMessages(data, fields[|fields| - 1]), fields[|fields| - 1]);
    assert more.threw == HasNonString(FieldMessages(data, fields[|fields| - 1]));
  }

  lemma {:induction false} FormatThrewStays(items: seq<Json>, field: string, k: nat)
    requires k <= |items| && FormatMessages(items[..k], field).threw
    ensures FormatMessages(items, field) == FormatMessages(items[..k], field)
    decreases |items| - k
  {
    if k < |items| {
      assert items[..k + 1][..k] == items[..k];
      FormatThrewStays(items, field, k + 1);
    } else {
      assert items[..k] == items;
    }
  }

  lemma {:induction false} FieldThrewStays(data: Json, fields: seq<string>, k: nat)
    requires k <= |fields| && FieldToasts(data, fields[..k]).threw
    ensures FieldToasts(data, fields) == FieldToasts(data, fields[..k])
    decreases |fields| - k
  {
    if k < |fields| {
      assert fields[..k + 1][..k] == fields[..k];
      FieldThrewStays(data, fields, k + 1);
    } else {
      assert fields[..k] == fields;
    }
  }

  /** Fields without messages show nothing and do not throw. */
  lemma {:induction false} NoMessagesNoToasts(data: Json, fields: seq<string>)
    requires MessageCount(data, fields) == 0
    ensures FieldToasts(data, fields) == Toasts([], false)
  {
    if fields != [] {
      NoMessagesNoToasts(data, fields[..|fields| - 1]);
    }
  }

  lemma {:induction false} MessageCountMono(data: Json, fields: seq<string>, k: nat)
    requires k <= |fields|
    ensures MessageCount(data, fields[..k]) <= MessageCount(data, fields)
  {
    if k < |fields| {
      var pre := fields[..|fields| - 1];
      MessageCountMono(data, pre, k);
      assert pre[..k] == fields[..k];
    } else {
      assert fields[..k] == fields;
    }
  }

  lemma MessageCountStep(data: Json, fields: seq<string>, k: nat)
    requires k < |fields|
    ensures MessageCount(data, fields[..k + 1]) == MessageCount(data, fields[..k]) + |FieldMessages(data, fields[k])|
  {
    assert fields[..k + 1][..k] == fields[..k];
  }

  /** Without a throw, the toasts of all fields are those of all but the
      last field, then the last field's. */
  lemma FieldToastsSplit(data: Json, fields: seq<string>)
    requires fields != [] && !FieldToasts(data, fields).threw
    ensures var pre, last := fields[..|fields| - 1], fields[|fields| - 1];
      && !FieldToasts(data, pre).threw
      && |FieldToasts(data, pre).shown| == MessageCount(data, pre)
      && FieldToasts(data, fields).shown
         == FieldToasts(data, pre).shown + FormatMessages(FieldMessages(data, last), last).shown
  {
  }

  /** The block of toasts of field `k`, when no message threw. */
  lemma {:induction false} FieldBlock(data: Json, fields: seq<string>, k: nat)
    requires k < |fields| && !FieldToasts(data, fields).threw
    ensures MessageCount(data, fields[..k]) <= MessageCount(data, fields[..k + 1]) <= MessageCount(data, fields)
    ensures FieldToasts(data, fields).shown[MessageCount(data, fields[..k])..MessageCount(data, fields[..k + 1])]
      == FormatMessages(FieldMessages(data, fields[k]), fields[k]).shown
    decreases |fields|, 1
  {
    MessageCountStep(data, fields, k);
    MessageCountMono(data, fields, k + 1);
    if k < |fields| - 1 {
      InnerFieldBlock(data, fields, k);
    } else {
      LastFieldBlock(data, fields);
      assert fields[..k + 1] == fields;
    }
  }

  lemma LastFieldBlock(data: Json, fields: seq<string>)
    requires fields != [] && !FieldToasts(data, fields).threw
    ensures var n := |fields|;
      FieldToasts(data, fields).shown[MessageCount(data, fields[..n - 1])..MessageCount(data, fields)]
        == FormatMessages(FieldMessages(data, fields[n - 1]), fields[n - 1]).shown
  {
    var n := |fields|;
    var pre := fields[..n - 1];
    FieldToastsSplit(data, fields);
    var a := FieldToasts(data, pre).shown;
    var b := FormatMessages(FieldMessages(data, fields[n - 1]), fields[n - 1]).shown;
    SliceOfAppendRight(a, b);
  }

  lemma {:induction false} InnerFieldBlock(data: Json, fields: seq<string>, k: nat)
    requires k + 1 < |fields| && !FieldToasts(data, fields).threw
    ensures MessageCount(data, fields[..k]) <= MessageCount(data, fields[..k + 1])
      <= MessageCount(data, fields[..|fields| - 1]) <= |FieldToasts(data, fields).shown|
    ensures FieldToasts(data, fields).shown[MessageCount(data, fields[..k])..MessageCount(data, fields[..k + 1])]
      == FormatMessages(FieldMessages(data, fields[k]), fields[k]).shown
    decreases |fields|, 0
  {
    var pre := fields[..|fields| - 1];
    MessageCountStep(data, fields, k);
    FieldToastsSplit(data, fields);
    FieldBlock(data, pre, k);
    MessageCountMono(data, pre, k + 1);
    assert fields[..k] == pre[..k];
    assert fields[..k + 1] == pre[..k + 1];
    assert pre[k] == fields[k];
    var a := FieldToasts(data, pre).shown;
    var b := FormatMessages(FieldMessages(data, fields[|fields| - 1]), fields[|fields| - 1]).shown;
    var lo, hi := MessageCount(data, pre[..k]), MessageCount(data, pre[..k + 1]);
    SliceOfAppendLeft(a, b, lo, hi);
    assert MessageCount(data, fields[..k]) == lo && MessageCount(data, fields[..k + 1]) == hi;
  }

  lemma SliceOfAppendLeft<T>(a: seq<T>, b: seq<T>, lo: nat, hi: nat)
    requires lo <= hi <= |a|
    ensures (a + b)[lo..hi] == a[lo..hi]
  {
  }

  lemma SliceOfAppendRight<T>(a: seq<T>, b: seq<T>)
    ensures (a + b)[|a|..|a| + |b|] == b
  {
  }

  /** The toasts come field by field, in the order of `fields`: the block of
      field `k` is exactly that field's messages with the field names
      replaced by `fields[k]`. */
  lemma FieldToastsContent(data: Json, fields: seq<string>)
    ensures forall k :: 0 <= k <= |fields| ==> MessageCount(data, fields[..k]) <= MessageCount(data, fields)
    ensures forall k :: 0 <= k < |fields| ==> MessageCount(data, fields[..k]) <= MessageCount(data, fields[..k + 1])
    ensures var t := FieldToasts(data, fields);
      !t.threw ==> forall k :: 0 <= k < |fields| ==>
        t.shown[MessageCount(data, fields[..k])..MessageCount(data, fields[..k + 1])]
          == FormatMessages(FieldMessages(data, fields[k]), fields[k]).shown
  {
    forall k | 0 <= k <= |fields|
      ensures MessageCount(data, fields[..k]) <= MessageCount(data, fields)
    {
      MessageCountMono(data, fields, k);
    }
    forall k | 0 <= k < |fields|
      ensures MessageCount(data, fields[..k]) <= MessageCount(data, fields[..k + 1])
    {
      MessageCountStep(data, fields, k);
    }
    if !FieldToasts(data, fields).threw {
      forall k | 0 <= k < |fields|
        ensures FieldToasts(data, fields).shown[MessageCount(data, fields[..k])..MessageCount(data, fields[..k + 1])]
          == FormatMessages(FieldMessages(data, fields[k]), fields[k]).shown
      {
        FieldBlock(data, fields, k);
      }
    }
  }

  /** The inner `forEach`: the messages of one field. */
  method ShowMessages(items: seq<Json>, field: string) returns (shown: seq<Json>, threw: bool)
    ensures Toasts(shown, threw) == FormatMessages(items, field)
  {
    shown, threw := [], false;
    var j := 0;
    while j < |items|
      invariant 0 <= j <= |items|
      invariant Toasts(shown, false) == FormatMessages(items[..j], field)
    {
      assert items[..j + 1][..j] == items[..j];
      if !items[j].JString? {
        FormatThrewStays(items, field, j + 1);
        threw := true;
        return;
      }
      shown := shown + [JString(ReplaceFieldNames(items[j].s, field))];
      j := j + 1;
    }
    assert items[..j] == items;
  }

  /** The outer `forEach` over `fields`, in order. */
  method ShowFields(data: Json, fields: seq<string>) returns (shown: seq<Json>, threw: bool)
    ensures Toasts(shown, threw) == FieldToasts(data, fields)
  {
    shown, threw := [], false;
    var i := 0;
    while i < |fields|
      invariant 0 <= i <= |fields|
      invariant Toasts(shown, false) == FieldToasts(data, fields[..i])
    {
      var field := fields[i];
      assert fields[..i + 1][..i] == fields[..i];
      var more, moreThrew := ShowMessages(FieldMessages(data, field), field);
      shown := shown + more;
      if moreThrew {
        FieldThrewStays(data, fields, i + 1);
        threw := true;
        return;
      }
      i := i + 1;
    }
    assert fields[..i] == fields;
  }

  /** The field messages, in the order Username, Email, Password. */
  method ShowFieldErrors(data: Json) returns (shown: seq<Json>, threw: bool)
    ensures Toasts(shown, threw) == FieldToasts(data, FieldNames)
  {
    shown, threw := ShowFields(data, FieldNames);
  }

  /** The catch block of `loginHandler`, given the thrown error: the server's
      message when there is one, else the field messages, else one generic
      message. Reading `error.data.message` throws when `data` is missing. */
  function LoginErrorToasts(error: Json): Toasts
  {
    match Member(Some(error), "data")
    case Threw => Toasts([], true)
    case Value(data) =>
      match Member(data, "message")
      case Threw => Toasts([], true)
      case Value(message) =>
        if Present(message) then Toasts([message.value], false)
        else
          var fields := FieldToasts(data.value, FieldNames);
          if !fields.threw && fields.shown == [] then Toasts([JString(GenericError)], false)
          else fields
  }

  /** A missing `data` throws with no toast; a truthy `data.message` is the
      one toast; otherwise the field messages are shown, or exactly one
      generic toast when there are none. */
  lemma LoginErrorToastsCases(error: Json)
    ensures Member(Some(error), "data").Threw? ==> LoginErrorToasts(error) == Toasts([], true)
    ensures var data := Member(Some(error), "data");
      data.Value? && Member(data.v, "message").Threw? ==> LoginErrorToasts(error) == Toasts([], true)
    ensures var data := Member(Some(error), "data");
      data.Value? && Member(data.v, "message").Value? && Present(Member(data.v, "message").v) ==>
        LoginErrorToasts(error) == Toasts([Member(data.v, "message").v.value], false)
    ensures var data := Member(Some(error), "data");
      data.Value? && Member(data.v, "message").Value? && !Present(Member(data.v, "message").v) ==>
        if MessageCount(data.v.value, FieldNames) == 0 then
          LoginErrorToasts(error) == Toasts([JString(GenericError)], false)
        else
          LoginErrorToasts(error) == FieldToasts(data.v.value, FieldNames)
  {
    var data := Member(Some(error), "data");
    if data.Value? && Member(data.v, "message").Value? && !Present(Member(data.v, "message").v) {
      if MessageCount(data.v.value, FieldNames) == 0 {
        NoMessagesNoToasts(data.v.value, FieldNames);
      }
    }
  }

  // ---------------------------------------------------------------------
  // The form

  /** The server's answer to the login request. */
  datatype LoginResponse = LoggedIn(body: map<string, Json>) | LoginFailed(error: Json)

  class LoginForm {
    var cred: string
    var pwd: string
    var credTouched: bool
    var pwdTouched: bool

    constructor ()
      ensures cred == "" && pwd == "" && !credTouched && !pwdTouched
    {
      cred, pwd := "", "";
      credTouched, pwdTouched := false, false;
    }

    /** `isInvalid={!cred && credTouched}`. */
    predicate CredInvalid()
      reads this
    {
      cred == "" && credTouched
    }

    predicate PwdInvalid()
      reads this
    {
      pwd == "" && pwdTouched
    }

    /** Typing into the login field: the field is now touched, and invalid
        exactly when it was emptied. */
    method HandleCredInput(value: string)
      modifies this
      ensures cred == value && credTouched
      ensures CredInvalid() <==> value == ""
      ensures pwd == old(pwd) && pwdTouched == old(pwdTouched)
    {
      cred := value;
      credTouched := true;
    }

    method HandlePwdInput(value: string)
      modifies this
      ensures pwd == value && pwdTouched
      ensures PwdInvalid() <==> value == ""
      ensures cred == old(cred) && credTouched == old(credTouched)
    {
      pwd := value;
      pwdTouched := true;
    }

    /** `loginHandler`: sends the payload; on success stores the response as
        the credentials and navigates to the previous path; on failure shows
        the toasts of `LoginErrorToasts`. The result tells whether the handler
        ended by throwing. */
    method LoginHandler(previousPath: string, response: LoginResponse, browser: Browser, store: AuthSlice.Store)
      returns (threw: bool)
      modifies browser, store
      ensures browser.trace == old(browser.trace) + LoginEvents(MakePayload(cred, pwd), previousPath, response)
      ensures threw == (response.LoginFailed? && LoginErrorToasts(response.error).threw)
      ensures response.LoggedIn? ==>
        store.userInfo == JObject(response.body)
        && store.storage == old(store.storage)[AuthSlice.StorageKey := Stringify(JObject(response.body))]
      ensures response.LoginFailed? ==> store.userInfo == old(store.userInfo) && store.storage == old(store.storage)
      ensures browser.responses == old(browser.responses)
    {
      threw := Submit(MakePayload(cred, pwd), previousPath, response, browser, store);
    }
  }

  /** The submission itself, once the payload is built. */
  method Submit(payload: CredentialPayload, previousPath: string, response: LoginResponse,
                browser: Browser, store: AuthSlice.Store) returns (threw: bool)
    modifies browser, store
    ensures browser.trace == old(browser.trace) + LoginEvents(payload, previousPath, response)
    ensures threw == (response.LoginFailed? && LoginErrorToasts(response.error).threw)
    ensures response.LoggedIn? ==>
      store.userInfo == JObject(response.body)
      && store.storage == old(store.storage)[AuthSlice.StorageKey := Stringify(JObject(response.body))]
    ensures response.LoginFailed? ==> store.userInfo == old(store.userInfo) && store.storage == old(store.storage)
    ensures browser.responses == old(browser.responses)
  {
    browser.Emit(DefaultPrevented);
    browser.Emit(Sent(BaseQuery(LoginArgs(payload))));
    AppendPair(old(browser.trace), DefaultPrevented, Sent(BaseQuery(LoginArgs(payload))));
    threw := Conclude(previousPath, response, browser, store);
    AppendAssoc(old(browser.trace), SentEvents(payload), OutcomeEvents(previousPath, response));
  }

  /** What follows the request: success or the catch block. */
  method Conclude(previousPath: string, response: LoginResponse, browser: Browser, store: AuthSlice.Store)
    returns (threw: bool)
    modifies browser, store
    ensures browser.trace == old(browser.trace) + OutcomeEvents(previousPath, response)
    ensures threw == (response.LoginFailed? && LoginErrorToasts(response.error).threw)
    ensures response.LoggedIn? ==>
      store.userInfo == JObject(response.body)
      && store.storage == old(store.storage)[AuthSlice.StorageKey := Stringify(JObject(response.body))]
    ensures response.LoginFailed? ==> store.userInfo == old(store.userInfo) && store.storage == old(store.storage)
    ensures browser.responses == old(browser.responses)
  {
    match response
    case LoggedIn(body) =>
      StoreCredentials(body, previousPath, browser, store);
      threw := false;
    case LoginFailed(error) =>
      threw := ShowLoginError(error, browser);
  }

  /** The try block after a successful request: the response becomes the
      stored credentials and the user goes back to the previous path. */
  method StoreCredentials(body: map<string, Json>, previousPath: string, browser: Browser, store: AuthSlice.Store)
    modifies browser, store
    ensures browser.trace == old(browser.trace) + [Dispatched(SetCredentialsAction(JObject(body))), Navigated(previousPath)]
    ensures store.userInfo == JObject(body)
    ensures store.storage == old(store.storage)[AuthSlice.StorageKey := Stringify(JObject(body))]
    ensures browser.responses == old(browser.responses)
  {
    store.SetCredentials(JObject(body));
    browser.Emit(Dispatched(SetCredentialsAction(JObject(body))));
    browser.Emit(Navigated(previousPath));
  }

  /** The catch block, shown: the toasts of `LoginErrorToasts`, in order. */
  method ShowLoginError(error: Json, browser: Browser) returns (threw: bool)
    modifies browser
    ensures browser.trace == old(browser.trace) + ErrorEvents(error)
    ensures threw == LoginErrorToasts(error).threw
    ensures browser.responses == old(browser.responses)
  {
    var shown;
    shown, threw := CatchToasts(error);
    EmitToasts(shown, browser);
  }

  /** The side effects of one submission, in order. */
  function LoginEvents(payload: CredentialPayload, previousPath: string, response: LoginResponse): seq<Event>
  {
    SentEvents(payload) + OutcomeEvents(previousPath, response)
  }

  /** The default prevented, then the request sent. */
  function SentEvents(payload: CredentialPayload): seq<Event>
  {
    [DefaultPrevented, Sent(BaseQuery(LoginArgs(payload)))]
  }

  /** The effects once the request has settled. */
  function OutcomeEvents(previousPath: string, response: LoginResponse): seq<Event>
  {
    match response
    case LoggedIn(body) => [Dispatched(SetCredentialsAction(JObject(body))), Navigated(previousPath)]
    case LoginFailed(error) => ErrorEvents(error)
  }

  /** The toasts of a failed login, as events. */
  function ErrorEvents(error: Json): seq<Event>
  {
    ToastErrors(LoginErrorToasts(error).shown)
  }

  /** A submission always prevents the default and sends the payload to the
      login endpoint first; then either the credentials are stored and the
      user is sent back to the previous path, or one error toast is shown per
      message of `LoginErrorToasts`, in order. */
  lemma LoginEventsOrder(payload: CredentialPayload, previousPath: string, response: LoginResponse)
    ensures var es := LoginEvents(payload, previousPath, response);
      && |es| >= 2 && es[..2] == [DefaultPrevented, Sent(BaseQuery(LoginArgs(payload)))]
      && (response.LoggedIn? ==>
            es[2..] == [Dispatched(SetCredentialsAction(JObject(response.body))), Navigated(previousPath)])
      && (response.LoginFailed? ==>
            |es| == 2 + |LoginErrorToasts(response.error).shown|
            && forall i :: 2 <= i < |es| ==> es[i] == ToastError(LoginErrorToasts(response.error).shown[i - 2]))
  {
  }

  /** The catch block, with the field loops run as methods. */
  method CatchToasts(error: Json) returns (shown: seq<Json>, threw: bool)
    ensures Toasts(shown, threw) == LoginErrorToasts(error)
  {
    var data := Member(Some(error), "data");
    if data.Threw? {
      return [], true;
    }
    var message := Member(data.v, "message");
    if message.Threw? {
      return [], true;
    }
    if Present(message.v) {
      return [message.v.value], false;
    }
    shown, threw := ShowFieldErrors(data.v.value);
    if !threw && shown == [] {
      shown := [JString(GenericError)];
    }
  }

  function ToastErrors(contents: seq<Json>): (es: seq<Event>)
    ensures |es| == |contents|
    ensures forall i :: 0 <= i < |es| ==> es[i] == ToastError(contents[i])
  {
    if contents == [] then [] else [ToastError(contents[0])] + ToastErrors(contents[1..])
  }

  method EmitToasts(contents: seq<Json>, browser: Browser)
    modifies browser
    ensures browser.trace == old(browser.trace) + ToastErrors(contents)
    ensures browser.responses == old(browser.responses)
  {
    var i := 0;
    while i < |contents|
      invariant 0 <= i <= |contents|
      invariant browser.trace == old(browser.trace) + ToastErrors(contents[..i])
      invariant browser.responses == old(browser.responses)
    {
      assert ToastErrors(contents[..i + 1]) == ToastErrors(contents[..i]) + [ToastError(contents[i])];
      browser.Emit(ToastError(contents[i]));
      i := i + 1;
    }
    assert contents[..i] == contents;
  }
}
