/** Refresh tokens as records and as stored documents (src/model.rs:138-160,
    src/firestore_store.rs:29-44 and 289-314), and scope strings (src/grants.rs:34-36). */
module Tokens {
  import opened Documents
  import opened Text

  // ----- Typed document fields -----

  datatype Field =
    | ClientId | AccountId | Scope | ExpiresAt | Resource | Jkt | Acr | AuthTime
    | FamilyId | Used | ReplacedBy
    | IssuedAccessToken | IssuedRefreshToken
    | Account | BindingMessage | Status | AuthorizationDetails

  datatype FieldValue = Text(text: string) | Timestamp(stamp: string) | Flag(flag: bool) | Number(number: nat)

  type Fields = map<Field, FieldValue>

  /** How expiry seconds become text and come back; the real pair is `Rfc3339.Print` and `Rfc3339.Parse`. */
  datatype Codec = Codec(print_: nat -> string, parse: string -> nat)

  function TextOf(f: Fields, k: Field): Option<string> {
    if k in f && f[k].Text? then Some(f[k].text) else None
  }

  function TextOr(f: Fields, k: Field, default: string): string {
    var t := TextOf(f, k);
    if t.Some? then t.value else default
  }

  predicate FlagSet(f: Fields, k: Field) {
    k in f && f[k].Flag? && f[k].flag
  }

  function NumberOf(f: Fields, k: Field): Option<nat> {
    if k in f && f[k].Number? then Some(f[k].number) else None
  }

  function SecondsOf(c: Codec, f: Fields, k: Field): nat {
    if k in f && f[k].Timestamp? then c.parse(f[k].stamp) else 0
  }

  function OptionalText(t: Option<string>): Option<FieldValue> {
    if t.Some? then Some(Text(t.value)) else None
  }

  function WithText(f: Fields, k: Field, t: Option<string>): Fields {
    if t.Some? then f[k := Text(t.value)] else f
  }

  // ----- Refresh tokens -----

  const REFRESH_TTL := 14 * 24 * 3600

  datatype RefreshToken = RefreshToken(
    token: string,
    clientId: string,
    accountId: string,
    scope: string,
    resource: Option<string>,
    jkt: Option<string>,
    acr: Option<string>,
    authTime: Option<nat>,
    familyId: string,
    used: bool,
    replacedBy: Option<string>)

  function FromFields(token: string, f: Fields): RefreshToken {
    RefreshToken(token, TextOr(f, ClientId, ""), TextOr(f, AccountId, ""), TextOr(f, Scope, ""),
                 TextOf(f, Resource), TextOf(f, Jkt), TextOf(f, Acr), NumberOf(f, AuthTime),
                 TextOr(f, FamilyId, ""), FlagSet(f, Used), TextOf(f, ReplacedBy))
  }

  /** The value written for each field, if any. */
  function FieldOf(t: RefreshToken, expiresAt: string, k: Field): Option<FieldValue> {
    match k
    case ClientId => Some(Text(t.clientId))
    case AccountId => Some(Text(t.accountId))
    case Scope => Some(Text(t.scope))
    case ExpiresAt => Some(Timestamp(expiresAt))
    case Resource => OptionalText(t.resource)
    case Jkt => OptionalText(t.jkt)
    case Acr => OptionalText(t.acr)
    case AuthTime => if t.authTime.Some? then Some(Number(t.authTime.value)) else None
    case FamilyId => Some(Text(t.familyId))
    case Used => Some(Flag(t.used))
    case ReplacedBy => OptionalText(t.replacedBy)
    case _ => None
  }

  function ToFields(t: RefreshToken, expiresAt: string): Fields {
    map k: Field | FieldOf(t, expiresAt, k).Some? :: FieldOf(t, expiresAt, k).value
  }

  /** Marking a stored token used touches the flag and, when there is a successor, the link. */
  function MarkUsed(f: Fields, next: Option<string>): Fields {
    WithText(f[Used := Flag(true)], ReplacedBy, next)
  }

  lemma FieldsRoundTrip(t: RefreshToken, expiresAt: string)
    ensures FromFields(t.token, ToFields(t, expiresAt)) == t
    ensures var f := ToFields(t, expiresAt); ExpiresAt in f && f[ExpiresAt] == Timestamp(expiresAt)
  {
    RequiredFields(t, expiresAt);
    OptionalFields(t, expiresAt);
  }

  lemma RequiredFields(t: RefreshToken, expiresAt: string)
    ensures var f := ToFields(t, expiresAt);
      TextOf(f, ClientId) == Some(t.clientId) && TextOf(f, AccountId) == Some(t.accountId) &&
      TextOf(f, Scope) == Some(t.scope) && TextOf(f, FamilyId) == Some(t.familyId) &&
      FlagSet(f, Used) == t.used && ExpiresAt in f && f[ExpiresAt] == Timestamp(expiresAt)
  {
    assert FieldOf(t, expiresAt, ExpiresAt).Some?;
  }

  lemma OptionalFields(t: RefreshToken, expiresAt: string)
    ensures var f := ToFields(t, expiresAt);
      TextOf(f, Resource) == t.resource && TextOf(f, Jkt) == t.jkt && TextOf(f, Acr) == t.acr &&
      NumberOf(f, AuthTime) == t.authTime && TextOf(f, ReplacedBy) == t.replacedBy
  {}

  lemma MarkUsedFields(token: string, f: Fields, next: Option<string>)
    ensures var t := FromFields(token, f);
      FromFields(token, MarkUsed(f, next)) == t.(used := true, replacedBy := if next.Some? then next else t.replacedBy)
  {}

  // ----- Scopes -----

  /** The words of `s`, given the characters `word` of the word being read. */
  function SplitFrom(word: string, s: string): seq<string>
    decreases |s|
  {
    var done := if word == "" then [] else [word];
    if s == "" then done
    else if IsSpace(s[0]) then done + SplitFrom("", s[1..])
    else SplitFrom(word + [s[0]], s[1..])
  }

  function Words(scope: string): seq<string> {
    SplitFrom("", scope)
  }

  lemma {:induction false} OneWord(word: string, s: string)
    requires word + s != "" && forall i :: 0 <= i < |s| ==> !IsSpace(s[i])
    ensures SplitFrom(word, s) == [word + s]
    decreases |s|
  {
    if s != "" {
      OneWord(word + [s[0]], s[1..]);
      assert word + [s[0]] + s[1..] == word + s;
    } else {
      assert word + s == word;
    }
  }

  /** Blanks before a word are skipped, and the blank after it ends it. */
  lemma {:induction false} WordsOfJoined(w: string, blank: char, rest: string)
    requires IsSpace(blank) && w != "" && forall i :: 0 <= i < |w| ==> !IsSpace(w[i])
    ensures Words(w + [blank] + rest) == [w] + Words(rest) && Words([blank] + rest) == Words(rest) && Words("") == []
  {
    WordUpTo("", w, blank, rest);
    assert "" + w == w;
    assert ([blank] + rest)[1..] == rest;
  }

  lemma {:induction false} WordUpTo(begun: string, w: string, blank: char, rest: string)
    requires IsSpace(blank) && begun + w != "" && forall i :: 0 <= i < |w| ==> !IsSpace(w[i])
    ensures SplitFrom(begun, w + [blank] + rest) == [begun + w] + SplitFrom("", rest)
    decreases |w|
  {
    var s := w + [blank] + rest;
    if w == "" {
      assert s[1..] == rest && begun + w == begun;
    } else {
      WordUpTo(begun + [w[0]], w[1..], blank, rest);
      assert s[1..] == w[1..] + [blank] + rest && (begun + [w[0]]) + w[1..] == begun + w;
    }
  }

  predicate HasScope(scope: string, want: string) {
    want in Words(scope)
  }

  ghost predicate Narrower(scope: string, than: string) {
    forall w :: w in Words(scope) ==> w in Words(than)
  }

  predicate AllWithin(words: seq<string>, of: seq<string>) {
    forall i :: 0 <= i < |words| ==> words[i] in of
  }

  const OFFLINE := "offline_access"

  /** The attributes every token of a rotation chain shares with the first, and the scope it may only narrow. */
  ghost predicate Heir(t: RefreshToken, first: RefreshToken) {
    && t.clientId == first.clientId && t.accountId == first.accountId && t.resource == first.resource
    && t.jkt == first.jkt && t.acr == first.acr && t.authTime == first.authTime && t.familyId == first.familyId
    && Narrower(t.scope, first.scope)
  }

  // ----- One presentation of a refresh token: the checks before anything is written -----

  datatype Presented = Presented(
    token: string,
    clientId: string,
    isPublic: bool,
    canSign: bool,            // a signing key exists for the client's id_token algorithm
    jkt: Option<string>,
    scope: Option<string>)

  datatype Verdict =
    | WrongClient
    | KeyMismatch
    | UnboundPublic
    | Reused
    | ScopeTooWide
    | Pass(scope: string)

  function Check(r: Presented, pre: RefreshToken): Verdict {
    if pre.clientId != r.clientId then WrongClient
    else if pre.jkt.Some? && r.jkt != pre.jkt then KeyMismatch
    else if pre.jkt.None? && r.isPublic then UnboundPublic
    else if pre.used then Reused
    else if r.scope.Some? && !AllWithin(Words(r.scope.value), Words(pre.scope)) then ScopeTooWide
    else Pass(if r.scope.Some? then r.scope.value else pre.scope)
  }

  /** The token saved after a rotation: the first token's attributes, the granted scope, a new name. */
  function Successor(r: Presented, pre: RefreshToken, scope: string, token: string): RefreshToken {
    RefreshToken(token, r.clientId, pre.accountId, scope, pre.resource, pre.jkt, pre.acr, pre.authTime,
                 pre.familyId, false, None)
  }

  lemma SuccessorIsHeir(r: Presented, pre: RefreshToken, first: RefreshToken, token: string)
    requires Heir(pre, first) && Check(r, pre).Pass?
    ensures Heir(Successor(r, pre, Check(r, pre).scope, token), first)
  {
    var scope := Check(r, pre).scope;
    forall w | w in Words(scope) ensures w in Words(first.scope) {
      if r.scope.Some? {
        assert AllWithin(Words(scope), Words(pre.scope));
      }
      assert w in Words(pre.scope);
    }
  }
}
