/** Document access: the flat string encoding decides exactly what the structured record says. */
module Acl {
  import opened Wrappers

  datatype DocumentAccess = DocumentAccess(
    userIds: seq<int>, groupIds: seq<string>,
    externalUserEmails: seq<string>, externalUserGroupIds: seq<string>, isPublic: bool)

  datatype User = User(userId: int, email: Option<string>, groupIds: seq<string>, externalGroupIds: seq<string>)

  // ---- Rendering numbers -----------------------------------------------------------

  function DigitChar(d: nat): char
    requires d < 10
  {
    ['0', '1', '2', '3', '4', '5', '6', '7', '8', '9'][d]
  }

  function NatToString(n: nat): (s: string)
    ensures |s| > 0 && s[0] != '-'
  {
    if n < 10 then [DigitChar(n)] else NatToString(n / 10) + [DigitChar(n % 10)]
  }

  /** The template literal `${n}` of an integer. */
  function NumberToString(n: int): (s: string)
    ensures |s| > 0
  {
    if n < 0 then "-" + NatToString(-n) else NatToString(n)
  }

  function StringToNat(s: string): int {
    if s == "" then 0 else 10 * StringToNat(s[..|s| - 1]) + (s[|s| - 1] as int - '0' as int)
  }

  function StringToNumber(s: string): int {
    if s != "" && s[0] == '-' then -StringToNat(s[1..]) else StringToNat(s)
  }

  lemma DigitValue(d: nat)
    requires d < 10
    ensures DigitChar(d) as int - '0' as int == d
  {
  }

  lemma {:induction false} NatReadsBack(n: nat)
    ensures StringToNat(NatToString(n)) == n
  {
    DigitValue(n % 10);
    if n < 10 {
      assert [DigitChar(n)][..0] == "";
    } else {
      NatReadsBack(n / 10);
      assert (NatToString(n / 10) + [DigitChar(n % 10)])[..|NatToString(n / 10)|] == NatToString(n / 10);
    }
  }

  lemma MinusReadsBack(digits: string)
    ensures StringToNumber("-" + digits) == -StringToNat(digits)
  {
    assert ("-" + digits)[1..] == digits;
  }

  lemma DigitsReadBack(digits: string)
    requires digits != "" && digits[0] != '-'
    ensures StringToNumber(digits) == StringToNat(digits)
  {
  }

  lemma NumberReadsBack(n: int)
    ensures StringToNumber(NumberToString(n)) == n
  {
    var size := if n < 0 then -n else n;
    var digits := NatToString(size);
    NatReadsBack(size);
    if n < 0 {
      MinusReadsBack(digits);
    } else {
      DigitsReadBack(digits);
    }
  }

  lemma NumberToStringInjective(m: int, n: int)
    ensures NumberToString(m) == NumberToString(n) <==> m == n
  {
    NumberReadsBack(m);
    NumberReadsBack(n);
  }

  // ---- The encoding, as lists ----------------------------------------------------------

  function Tagged(tag: string, items: seq<string>): (tokens: seq<string>)
    ensures |tokens| == |items| && forall i :: 0 <= i < |items| ==> tokens[i] == tag + items[i]
  {
    seq(|items|, i requires 0 <= i < |items| => tag + items[i])
  }

  function Numbers(ids: seq<int>): (strings: seq<string>)
    ensures |strings| == |ids| && forall i :: 0 <= i < |ids| ==> strings[i] == NumberToString(ids[i])
  {
    seq(|ids|, i requires 0 <= i < |ids| => NumberToString(ids[i]))
  }

  /** String.prototype.toLowerCase, of which nothing else is needed. */
  type Lower = string -> string

  function LowerAll(items: seq<string>, lower: Lower): (lowered: seq<string>)
    ensures |lowered| == |items| && forall i :: 0 <= i < |items| ==> lowered[i] == lower(items[i])
  {
    seq(|items|, i requires 0 <= i < |items| => lower(items[i]))
  }

  function PublicTokens(isPublic: bool): seq<string> {
    if isPublic then ["public"] else []
  }

  function AclTokens(access: DocumentAccess, lower: Lower): seq<string> {
    PublicTokens(access.isPublic)
    + Tagged("user:", Numbers(access.userIds))
    + Tagged("group:", access.groupIds)
    + Tagged("ext_email:", LowerAll(access.externalUserEmails, lower))
    + Tagged("ext_group:", access.externalUserGroupIds)
  }

  function EmailTokens(email: Option<string>, lower: Lower): seq<string> {
    if email.Some? && email.value != "" then ["ext_email:" + lower(email.value)] else []
  }

  function UserTokens(user: User, lower: Lower): seq<string> {
    ["public", "user:" + NumberToString(user.userId)]
    + EmailTokens(user.email, lower)
    + Tagged("group:", user.groupIds)
    + Tagged("ext_group:", user.externalGroupIds)
  }

  // ---- The program -------------------------------------------------------------------------

  method PushTagged(acl: seq<string>, tag: string, items: seq<string>) returns (longer: seq<string>)
    ensures longer == acl + Tagged(tag, items)
  {
    longer := acl;
    ghost var tokens := Tagged(tag, items);
    for i := 0 to |items|
      invariant longer == acl + tokens[..i]
    {
      longer := longer + [tag + items[i]];
    }
  }

  method PushUserIds(acl: seq<string>, ids: seq<int>) returns (longer: seq<string>)
    ensures longer == acl + Tagged("user:", Numbers(ids))
  {
    longer := acl;
    ghost var tokens := Tagged("user:", Numbers(ids));
    for i := 0 to |ids|
      invariant longer == acl + tokens[..i]
    {
      var number := NumberToString(ids[i]);
      assert tokens[i] == "user:" + Numbers(ids)[i];
      longer := longer + ["user:" + number];
    }
  }

  method PushEmails(acl: seq<string>, emails: seq<string>, lower: Lower) returns (longer: seq<string>)
    ensures longer == acl + Tagged("ext_email:", LowerAll(emails, lower))
  {
    longer := acl;
    ghost var tokens := Tagged("ext_email:", LowerAll(emails, lower));
    for i := 0 to |emails|
      invariant longer == acl + tokens[..i]
    {
      longer := longer + ["ext_email:" + lower(emails[i])];
    }
  }

  method ToAclList(access: DocumentAccess, lower: Lower) returns (acl: seq<string>)
    ensures acl == AclTokens(access, lower)
  {
    acl := [];
    if access.isPublic {
      acl := acl + ["public"];
    }
    assert acl == PublicTokens(access.isPublic);
    acl := PushUserIds(acl, access.userIds);
    acl := PushTagged(acl, "group:", access.groupIds);
    acl := PushEmails(acl, access.externalUserEmails, lower);
    acl := PushTagged(acl, "ext_group:", access.externalUserGroupIds);
  }

  method BuildUserAclTokens(user: User, lower: Lower) returns (tokens: seq<string>)
    ensures tokens == UserTokens(user, lower)
  {
    tokens := ["public", "user:" + NumberToString(user.userId)];
    if user.email.Some? && user.email.value != "" {
      tokens := tokens + ["ext_email:" + lower(user.email.value)];
    }
    tokens := PushTagged(tokens, "group:", user.groupIds);
    tokens := PushTagged(tokens, "ext_group:", user.externalGroupIds);
  }

  // ---- What the encoding decides ---------------------------------------------------------------

  /** The structured rule. */
  ghost predicate MayRead(access: DocumentAccess, user: User, lower: Lower) {
    || access.isPublic
    || user.userId in access.userIds
    || (exists g :: g in access.groupIds && g in user.groupIds)
    || (exists g :: g in access.externalUserGroupIds && g in user.externalGroupIds)
    || (user.email.Some? && user.email.value != ""
        && exists e :: e in access.externalUserEmails && lower(e) == lower(user.email.value))
  }

  /** What a token says, read back from its text. */
  datatype Claim =
    | Public
    | UserId(id: string)
    | Group(group: string)
    | ExternalEmail(email: string)
    | ExternalGroup(externalGroup: string)

  function Encode(claim: Claim): string {
    match claim
    case Public => "public"
    case UserId(id) => "user:" + id
    case Group(group) => "group:" + group
    case ExternalEmail(email) => "ext_email:" + email
    case ExternalGroup(group) => "ext_group:" + group
  }

  function Decode(token: string): Option<Claim> {
    if token == "public" then Some(Public)
    else if "user:" <= token then Some(UserId(token[5..]))
    else if "group:" <= token then Some(Group(token[6..]))
    else if "ext_email:" <= token then Some(ExternalEmail(token[10..]))
    else if "ext_group:" <= token then Some(ExternalGroup(token[10..]))
    else None
  }

  /** No tag can be mistaken for another, whatever follows it. */
  lemma DecodeEncode(claim: Claim)
    ensures Decode(Encode(claim)) == Some(claim)
  {
    var token := Encode(claim);
    match claim
    case Public =>
    case UserId(id) => assert token[0] == 'u' && token[5..] == id;
    case Group(group) => assert token[0] == 'g' && token[6..] == group;
    case ExternalEmail(email) => assert token[0] == 'e' && token[4] == 'e' && token[10..] == email;
    case ExternalGroup(group) => assert token[0] == 'e' && token[4] == 'g' && token[10..] == group;
  }

  lemma EncodeInjective(c: Claim, d: Claim)
    ensures Encode(c) == Encode(d) <==> c == d
  {
    DecodeEncode(c);
    DecodeEncode(d);
  }

  /** The claims a document's list makes, and those a user's tokens make. */
  ghost predicate DocumentClaims(access: DocumentAccess, lower: Lower, c: Claim) {
    match c
    case Public => access.isPublic
    case UserId(id) => exists n :: n in access.userIds && id == NumberToString(n)
    case Group(g) => g in access.groupIds
    case ExternalEmail(e) => exists m :: m in access.externalUserEmails && e == lower(m)
    case ExternalGroup(g) => g in access.externalUserGroupIds
  }

  ghost predicate UserClaims(user: User, lower: Lower, c: Claim) {
    match c
    case Public => true
    case UserId(id) => id == NumberToString(user.userId)
    case Group(g) => g in user.groupIds
    case ExternalEmail(e) => user.email.Some? && user.email.value != "" && e == lower(user.email.value)
    case ExternalGroup(g) => g in user.externalGroupIds
  }

  lemma TaggedMembers(tag: string, items: seq<string>, token: string)
    ensures token in Tagged(tag, items) <==> exists item :: item in items && token == tag + item
  {
  }

  lemma NumbersMembers(ids: seq<int>, s: string)
    ensures s in Numbers(ids) <==> exists n :: n in ids && s == NumberToString(n)
  {
  }

  lemma LoweredMembers(items: seq<string>, lower: Lower, s: string)
    ensures s in LowerAll(items, lower) <==> exists m :: m in items && s == lower(m)
  {
  }

  lemma UserIdTokens(access: DocumentAccess, lower: Lower, token: string)
    ensures token in Tagged("user:", Numbers(access.userIds)) <==>
      exists id :: DocumentClaims(access, lower, UserId(id)) && token == Encode(UserId(id))
  {
    TaggedMembers("user:", Numbers(access.userIds), token);
    forall id ensures id in Numbers(access.userIds) <==> DocumentClaims(access, lower, UserId(id)) {
      NumbersMembers(access.userIds, id);
    }
  }

  lemma GroupTokens(access: DocumentAccess, lower: Lower, token: string)
    ensures token in Tagged("group:", access.groupIds) <==>
      exists g :: DocumentClaims(access, lower, Group(g)) && token == Encode(Group(g))
  {
    TaggedMembers("group:", access.groupIds, token);
    assert forall g :: g in access.groupIds <==> DocumentClaims(access, lower, Group(g));
  }

  lemma EmailClaimTokens(access: DocumentAccess, lower: Lower, token: string)
    ensures token in Tagged("ext_email:", LowerAll(access.externalUserEmails, lower)) <==>
      exists e :: DocumentClaims(access, lower, ExternalEmail(e)) && token == Encode(ExternalEmail(e))
  {
    TaggedMembers("ext_email:", LowerAll(access.externalUserEmails, lower), token);
    forall e
      ensures e in LowerAll(access.externalUserEmails, lower) <==> DocumentClaims(access, lower, ExternalEmail(e))
    {
      LoweredMembers(access.externalUserEmails, lower, e);
    }
  }

  lemma ExternalGroupTokens(access: DocumentAccess, lower: Lower, token: string)
    ensures token in Tagged("ext_group:", access.externalUserGroupIds) <==>
      exists g :: DocumentClaims(access, lower, ExternalGroup(g)) && token == Encode(ExternalGroup(g))
  {
    TaggedMembers("ext_group:", access.externalUserGroupIds, token);
    assert forall g :: g in access.externalUserGroupIds <==> DocumentClaims(access, lower, ExternalGroup(g));
  }

  lemma MemberOfFive(a: seq<string>, b: seq<string>, c: seq<string>, d: seq<string>, e: seq<string>, token: string)
    ensures token in a + b + c + d + e <==>
      token in a || token in b || token in c || token in d || token in e
  {
  }

  /** A document's tokens are exactly its claims, encoded. */
  lemma DocumentTokens(access: DocumentAccess, lower: Lower, token: string)
    ensures token in AclTokens(access, lower) <==> exists c :: DocumentClaims(access, lower, c) && token == Encode(c)
  {
    MemberOfFive(PublicTokens(access.isPublic), Tagged("user:", Numbers(access.userIds)),
                 Tagged("group:", access.groupIds),
                 Tagged("ext_email:", LowerAll(access.externalUserEmails, lower)),
                 Tagged("ext_group:", access.externalUserGroupIds), token);
    assert token in PublicTokens(access.isPublic) <==> DocumentClaims(access, lower, Public) && token == Encode(Public);
    UserIdTokens(access, lower, token);
    GroupTokens(access, lower, token);
    EmailClaimTokens(access, lower, token);
    ExternalGroupTokens(access, lower, token);
  }

  lemma UserTokensAreClaims(user: User, lower: Lower, token: string)
    ensures token in UserTokens(user, lower) <==> exists c :: UserClaims(user, lower, c) && token == Encode(c)
  {
    TaggedMembers("group:", user.groupIds, token);
    TaggedMembers("ext_group:", user.externalGroupIds, token);
    if token in UserTokens(user, lower) {
      if token == "public" {
        assert UserClaims(user, lower, Public) && token == Encode(Public);
      } else if token == "user:" + NumberToString(user.userId) {
        var c := UserId(NumberToString(user.userId));
        assert UserClaims(user, lower, c) && token == Encode(c);
      } else if token in EmailTokens(user.email, lower) {
        var c := ExternalEmail(lower(user.email.value));
        assert UserClaims(user, lower, c) && token == Encode(c);
      } else if token in Tagged("group:", user.groupIds) {
        var item :| item in user.groupIds && token == "group:" + item;
        assert UserClaims(user, lower, Group(item)) && token == Encode(Group(item));
      } else {
        var item :| item in user.externalGroupIds && token == "ext_group:" + item;
        assert UserClaims(user, lower, ExternalGroup(item)) && token == Encode(ExternalGroup(item));
      }
    }
  }

  /** A user's tokens meet a document's list exactly when the structured record lets the user in. */
  lemma TokensDecideAccess(access: DocumentAccess, user: User, lower: Lower)
    ensures (exists token :: token in AclTokens(access, lower) && token in UserTokens(user, lower))
       <==> MayRead(access, user, lower)
  {
    SharedTokenIsSharedClaim(access, user, lower);
    if c :| DocumentClaims(access, lower, c) && UserClaims(user, lower, c) {
      if c.UserId? {
        var n :| n in access.userIds && c.id == NumberToString(n);
        NumberToStringInjective(n, user.userId);
      }
    }
    if MayRead(access, user, lower) {
      var c :=
        if access.isPublic then Public
        else if user.userId in access.userIds then UserId(NumberToString(user.userId))
        else if g :| g in access.groupIds && g in user.groupIds then Group(g)
        else if g :| g in access.externalUserGroupIds && g in user.externalGroupIds then ExternalGroup(g)
        else ExternalEmail(lower(user.email.value));
      assert DocumentClaims(access, lower, c) && UserClaims(user, lower, c);
    }
  }

  lemma SharedTokenIsSharedClaim(access: DocumentAccess, user: User, lower: Lower)
    ensures (exists token :: token in AclTokens(access, lower) && token in UserTokens(user, lower))
       <==> (exists c :: DocumentClaims(access, lower, c) && UserClaims(user, lower, c))
  {
    if token :| token in AclTokens(access, lower) && token in UserTokens(user, lower) {
      DocumentTokens(access, lower, token);
      UserTokensAreClaims(user, lower, token);
      var c :| DocumentClaims(access, lower, c) && token == Encode(c);
      var d :| UserClaims(user, lower, d) && token == Encode(d);
      EncodeInjective(c, d);
    }
    if c :| DocumentClaims(access, lower, c) && UserClaims(user, lower, c) {
      DocumentTokens(access, lower, Encode(c));
      UserTokensAreClaims(user, lower, Encode(c));
    }
  }

  // ---- The texts of the tokens ------------------------------------------------------------------

  /** Numbers are written in decimal, highest digit first, with a minus sign if negative. */
  lemma NumberText(n: int, d: int)
    requires 0 <= n && 0 <= d < 10
    ensures NumberToString(d) == [('0' as int + d) as char]
    ensures n > 0 ==> NumberToString(10 * n + d) == NumberToString(n) + NumberToString(d)
    ensures n > 0 ==> NumberToString(-n) == "-" + NumberToString(n)
  {
    DigitValue(d);
    assert (10 * n + d) / 10 == n && (10 * n + d) % 10 == d;
  }

  /** What a document's list contains, token by token. */
  lemma DocumentTokenTexts(access: DocumentAccess, lower: Lower, n: int, text: string)
    ensures "public" in AclTokens(access, lower) <==> access.isPublic
    ensures "user:" + NumberToString(n) in AclTokens(access, lower) <==> n in access.userIds
    ensures "group:" + text in AclTokens(access, lower) <==> text in access.groupIds
    ensures "ext_email:" + text in AclTokens(access, lower) <==>
      exists m :: m in access.externalUserEmails && text == lower(m)
    ensures "ext_group:" + text in AclTokens(access, lower) <==> text in access.externalUserGroupIds
  {
    DocumentHas(access, lower, Public);
    DocumentHas(access, lower, UserId(NumberToString(n)));
    DocumentHas(access, lower, Group(text));
    DocumentHas(access, lower, ExternalEmail(text));
    DocumentHas(access, lower, ExternalGroup(text));
    if m :| m in access.userIds && NumberToString(n) == NumberToString(m) {
      NumberToStringInjective(n, m);
    }
  }

  lemma DocumentHas(access: DocumentAccess, lower: Lower, c: Claim)
    ensures Encode(c) in AclTokens(access, lower) <==> DocumentClaims(access, lower, c)
  {
    DocumentTokens(access, lower, Encode(c));
    if d :| DocumentClaims(access, lower, d) && Encode(c) == Encode(d) {
      EncodeInjective(c, d);
    }
  }

  /** What a user's list contains, token by token. */
  lemma UserTokenTexts(user: User, lower: Lower, n: int, text: string)
    ensures "public" in UserTokens(user, lower)
    ensures "user:" + NumberToString(n) in UserTokens(user, lower) <==> n == user.userId
    ensures "group:" + text in UserTokens(user, lower) <==> text in user.groupIds
    ensures "ext_email:" + text in UserTokens(user, lower) <==>
      user.email.Some? && user.email.value != "" && text == lower(user.email.value)
    ensures "ext_group:" + text in UserTokens(user, lower) <==> text in user.externalGroupIds
  {
    UserHas(user, lower, Public);
    UserHas(user, lower, UserId(NumberToString(n)));
    UserHas(user, lower, Group(text));
    UserHas(user, lower, ExternalEmail(text));
    UserHas(user, lower, ExternalGroup(text));
    NumberToStringInjective(n, user.userId);
  }

  lemma UserHas(user: User, lower: Lower, c: Claim)
    ensures Encode(c) in UserTokens(user, lower) <==> UserClaims(user, lower, c)
  {
    UserTokensAreClaims(user, lower, Encode(c));
    if d :| UserClaims(user, lower, d) && Encode(c) == Encode(d) {
      EncodeInjective(c, d);
    }
  }
}
