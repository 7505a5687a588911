/**
 * The key scheme of the Redis adapter: every record lives at a key made of the
 * fixed prefix "authjs", an entity prefix and the natural identifier, joined by ':'.
 * No segment is escaped, so a ':' inside an identifier can make two keys collide.
 */
module Keys {

  const Prefix: string := "authjs"
  const TokenPrefix: string := Prefix + ":verification_token"
  const UserPrefix: string := Prefix + ":user"
  const SessionPrefix: string := Prefix + ":session"
  const ProviderAccountPrefix: string := Prefix + ":provider_account"

  /** Key of the hash holding a verification token, by its identifier. */
  function TokenKey(identifier: string): (key: string)
    ensures key == "authjs:verification_token:" + identifier
  {
    TokenPrefix + ":" + identifier
  }

  /** Key of a user hash; the source uses it with an id and with an email alike. */
  function UserKey(id: string): (key: string)
    ensures key == "authjs:user:" + id
  {
    UserPrefix + ":" + id
  }

  /** Key of the set of account members linked to a user. */
  function AccountsKey(userId: string): (key: string)
    ensures key == "authjs:user:" + userId + ":accounts"
  {
    UserPrefix + ":" + userId + ":accounts"
  }

  /** The member naming one provider account inside a user's accounts set. */
  function AccountMember(provider: string, providerAccountId: string): (member: string)
    ensures |member| == |provider| + 1 + |providerAccountId|
    ensures member[..|provider|] == provider && member[|provider|] == ':'
    ensures member[|provider| + 1..] == providerAccountId
  {
    provider + ":" + providerAccountId
  }

  /** Key of the hash holding one provider account, from its accounts-set member. */
  function ProviderAccountKey(member: string): (key: string)
    ensures key == "authjs:provider_account:" + member
  {
    ProviderAccountPrefix + ":" + member
  }

  /** Key of the hash holding one session, by its session token. */
  function SessionKey(sessionToken: string): (key: string)
    ensures key == "authjs:session:" + sessionToken
  {
    SessionPrefix + ":" + sessionToken
  }

  /** True when `s` holds no ':' and so cannot be mistaken for a delimiter. */
  predicate NoColon(s: string)
  {
    forall i :: 0 <= i < |s| ==> s[i] != ':'
  }

  /** Equal keys under a common prefix have equal suffixes. */
  lemma PrefixCancel(p: string, x: string, y: string)
    requires p + x == p + y
    ensures x == y
  {
    assert x == (p + x)[|p|..];
    assert y == (p + y)[|p|..];
  }

  /**
   * The character after "authjs:" tells the four kinds of key apart:
   * 'v' for tokens, 'u' for users (and accounts sets), 's' for sessions,
   * 'p' for provider accounts.
   */
  lemma KindLetters(x: string)
    ensures |TokenKey(x)| > 7 && TokenKey(x)[7] == 'v'
    ensures |UserKey(x)| > 7 && UserKey(x)[7] == 'u'
    ensures |AccountsKey(x)| > 7 && AccountsKey(x)[7] == 'u'
    ensures |SessionKey(x)| > 7 && SessionKey(x)[7] == 's'
    ensures |ProviderAccountKey(x)| > 7 && ProviderAccountKey(x)[7] == 'p'
  {
  }

  /**
   * Keys of different kinds never coincide, whatever the identifiers, except a
   * user key and an accounts-set key: `UserKey(id + ":accounts")` is
   * `AccountsKey(id)` (see `AccountsKeyIsUserKey`).
   */
  lemma KindsDisjoint(x: string, y: string)
    ensures TokenKey(x) != UserKey(y) && TokenKey(x) != SessionKey(y)
    ensures TokenKey(x) != ProviderAccountKey(y) && TokenKey(x) != AccountsKey(y)
    ensures UserKey(x) != SessionKey(y) && UserKey(x) != ProviderAccountKey(y)
    ensures SessionKey(x) != ProviderAccountKey(y) && SessionKey(x) != AccountsKey(y)
    ensures ProviderAccountKey(x) != AccountsKey(y)
  {
    KindLetters(x);
    KindLetters(y);
  }

  /** Equal strings with a common suffix agree before it. */
  lemma SuffixCancel(x: string, y: string, q: string)
    requires x + q == y + q
    ensures x == y
  {
    assert |x| == |y|;
    assert x == (x + q)[..|x|];
    assert y == (y + q)[..|y|];
  }

  /**
   * Token, user, accounts-set, session and provider-account keys each determine
   * the identifier they were built from.
   */
  lemma KeysInjective(x: string, y: string)
    ensures TokenKey(x) == TokenKey(y) ==> x == y
    ensures UserKey(x) == UserKey(y) ==> x == y
    ensures AccountsKey(x) == AccountsKey(y) ==> x == y
    ensures SessionKey(x) == SessionKey(y) ==> x == y
    ensures ProviderAccountKey(x) == ProviderAccountKey(y) ==> x == y
  {
    if AccountsKey(x) == AccountsKey(y) {
      assert AccountsKey(x) == (UserPrefix + ":") + (x + ":accounts");
      assert AccountsKey(y) == (UserPrefix + ":") + (y + ":accounts");
      PrefixCancel(UserPrefix + ":", x + ":accounts", y + ":accounts");
      SuffixCancel(x, y, ":accounts");
    }
    if TokenKey(x) == TokenKey(y) { PrefixCancel(TokenPrefix + ":", x, y); }
    if UserKey(x) == UserKey(y) { PrefixCancel(UserPrefix + ":", x, y); }
    if SessionKey(x) == SessionKey(y) { PrefixCancel(SessionPrefix + ":", x, y); }
    if ProviderAccountKey(x) == ProviderAccountKey(y) { PrefixCancel(ProviderAccountPrefix + ":", x, y); }
  }

  /**
   * A user's accounts-set key is the user key of the id extended by ":accounts":
   * the two coincide exactly when an email (or id) has that shape.
   */
  lemma AccountsKeyIsUserKey(userId: string, email: string)
    ensures AccountsKey(userId) == UserKey(userId + ":accounts")
    ensures AccountsKey(userId) == UserKey(email) <==> email == userId + ":accounts"
    ensures AccountsKey(userId) != UserKey(userId)
  {
    assert AccountsKey(userId) == UserKey(userId + ":accounts");
    KeysInjective(userId + ":accounts", email);
    assert |AccountsKey(userId)| != |UserKey(userId)|;
  }

  /**
   * The account member determines provider and provider account id as long as
   * the provider holds no ':'; the provider account id may hold any character.
   */
  lemma AccountMemberInjective(p1: string, a1: string, p2: string, a2: string)
    requires NoColon(p1) && NoColon(p2)
    requires AccountMember(p1, a1) == AccountMember(p2, a2)
    ensures p1 == p2 && a1 == a2
  {
    SplitAtColon(p1, a1);
    SplitAtColon(p2, a2);
    var w := AccountMember(p1, a1);
    assert |p1| == |p2|;
    assert p1 == w[..|p1|] == p2;
    assert a1 == w[|p1| + 1..] == a2;
  }

  /** An account member holds its provider, then ':', then the account id. */
  lemma SplitAtColon(provider: string, providerAccountId: string)
    ensures |AccountMember(provider, providerAccountId)| > |provider|
    ensures AccountMember(provider, providerAccountId)[|provider|] == ':'
    ensures forall i :: 0 <= i < |provider| ==> AccountMember(provider, providerAccountId)[i] == provider[i]
  {
  }

  /** Two different provider accounts share one key when the provider holds ':'. */
  lemma AccountKeyCollision()
    ensures AccountMember("a:b", "c") == AccountMember("a", "b:c")
    ensures ProviderAccountKey(AccountMember("a:b", "c")) == ProviderAccountKey(AccountMember("a", "b:c"))
  {
  }
}
