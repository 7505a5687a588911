/**
 * The Redis adapter itself: each method issues its Redis commands on the
 * connection, one after the other, and is proved to leave the keyspace (and to
 * return) exactly what the function of the same name in AdapterSpec says.
 *
 * The helpers getUser and setUser are module-level functions that use a client
 * created at module level, while the adapter's methods use the client they are
 * given. This model has one store: it takes the two clients to be connected to the
 * same database, and passes the adapter's client to the helpers.
 */
module Adapter {
  import opened Wrappers
  import opened Keys
  import opened RedisStore
  import AdapterSpec

  /** The module-level getUser: HGETALL of the user key built from `id`. */
  method LoadUser(client: Store, id: string) returns (user: Option<Record>)
    ensures user == AdapterSpec.GetUser(client.Contents(), id)
  {
    user := client.HGetAll(UserKey(id));
  }

  /** The module-level setUser: HSET of the user under the key built from its email. */
  method SaveUser(client: Store, user: Record) returns (saved: Record)
    requires client.Valid() && "email" in user
    modifies client
    ensures client.Valid()
    ensures (client.Contents(), saved) == AdapterSpec.SetUser(old(client.Contents()), user)
  {
    client.HSet(UserKey(user["email"]), user);
    saved := user;
  }

  /** The object `RedisAdapter(client)` returns. */
  class RedisAdapter {
    const client: Store

    constructor (client: Store)
      ensures this.client == client
    {
      this.client := client;
    }

    method CreateVerificationToken(verificationToken: AdapterSpec.VerificationToken)
      returns (created: AdapterSpec.VerificationToken)
      requires client.Valid()
      modifies client
      ensures client.Valid()
      ensures (client.Contents(), created)
           == AdapterSpec.CreateVerificationToken(old(client.Contents()), verificationToken)
    {
      client.HSet(TokenKey(verificationToken.identifier), AdapterSpec.TokenFields(verificationToken));
      created := verificationToken;
    }

    method UseVerificationToken(identifier: string, token: string) returns (used: Option<Record>)
      requires client.Valid()
      modifies client
      ensures client.Valid()
      ensures (client.Contents(), used)
           == AdapterSpec.UseVerificationToken(old(client.Contents()), identifier, token)
    {
      var result := client.HGetAll(TokenKey(identifier));
      if result.Some? && "token" in result.value && result.value["token"] == token {
        client.Del(TokenKey(identifier));
        used := result;
      } else {
        used := None;
      }
    }

    method GetUserByEmail(email: string) returns (user: Option<Record>)
      ensures user == AdapterSpec.GetUserByEmail(client.Contents(), email)
    {
      user := LoadUser(client, email);
    }

    method CreateUser(user: Record) returns (created: Record)
      requires client.Valid() && "email" in user
      modifies client
      ensures client.Valid()
      ensures (client.Contents(), created) == AdapterSpec.SetUser(old(client.Contents()), user)
    {
      created := SaveUser(client, user);
    }

    method GetUser(id: string) returns (user: Option<Record>)
      ensures user == AdapterSpec.GetUser(client.Contents(), id)
    {
      user := LoadUser(client, id);
    }

    method GetUserByAccount(provider: string, providerAccountId: string) returns (user: Option<Record>)
      ensures user == AdapterSpec.GetUserByAccount(client.Contents(), provider, providerAccountId)
    {
      var data := client.HGetAll(ProviderAccountKey(AccountMember(provider, providerAccountId)));
      if data.None? {
        return None;
      }
      user := LoadUser(client, AdapterSpec.Interpolate(data.value, "userId"));
    }

    method UpdateUser(user: Record) returns (updated: Record)
      requires client.Valid() && "email" in user
      modifies client
      ensures client.Valid()
      ensures (client.Contents(), updated) == AdapterSpec.SetUser(old(client.Contents()), user)
    {
      updated := SaveUser(client, user);
    }

    method LinkAccount(data: Record)
      requires client.Valid() && AdapterSpec.IsAccount(data)
      modifies client
      ensures client.Valid()
      ensures client.Contents() == AdapterSpec.LinkAccount(old(client.Contents()), data)
    {
      var userId, providerAccountId, provider := data["userId"], data["providerAccountId"], data["provider"];
      client.SAdd(AccountsKey(userId), AccountMember(provider, providerAccountId));
      client.HSet(ProviderAccountKey(AccountMember(provider, providerAccountId)), data);
    }

    method UnlinkAccount(provider: string, providerAccountId: string)
      requires client.Valid()
      modifies client
      ensures client.Valid()
      ensures client.Contents() == AdapterSpec.UnlinkAccount(old(client.Contents()), provider, providerAccountId)
    {
      var key := ProviderAccountKey(AccountMember(provider, providerAccountId));
      var data := client.HGetAll(key);
      if data.None? {
        return;
      }
      var userId := AdapterSpec.Interpolate(data.value, "userId");
      client.SRem(AccountsKey(userId), AccountMember(provider, providerAccountId));
      client.Del(key);
    }

    method DeleteUser(userId: string)
      requires client.Valid()
      modifies client
      ensures client.Valid()
      ensures client.Contents() == AdapterSpec.DeleteUser(old(client.Contents()), userId)
    {
      var user := LoadUser(client, userId);
      if user.None? {
        return;
      }
      client.Del(UserKey(userId));
      client.Del(UserKey(AdapterSpec.Interpolate(user.value, "email")));
      var accounts := client.SMembers(AccountsKey(userId));
      DeleteAccounts(accounts);
    }

    /** The loop of deleteUser: DEL of the provider account key of each member, one by one. */
    method DeleteAccounts(accounts: set<string>)
      requires client.Valid()
      modifies client
      ensures client.Valid()
      ensures client.Contents() == DeleteAll(old(client.Contents()), AdapterSpec.AccountKeys(accounts))
    {
      ghost var before := client.Contents();
      var pending := accounts;
      ghost var done: set<string> := {};
      assert AdapterSpec.AccountKeys(done) == {};
      while pending != {}
        invariant client.Valid()
        invariant pending <= accounts && done == accounts - pending
        invariant client.Contents() == DeleteAll(before, AdapterSpec.AccountKeys(done))
        decreases pending
      {
        var account :| account in pending;
        client.Del(ProviderAccountKey(account));
        DeleteAllStep(before, AdapterSpec.AccountKeys(done), ProviderAccountKey(account));
        assert AdapterSpec.AccountKeys(done + {account})
            == AdapterSpec.AccountKeys(done) + {ProviderAccountKey(account)};
        pending := pending - {account};
        done := done + {account};
      }
      assert done == accounts;
    }

    method CreateSession(session: AdapterSpec.Session) returns (created: AdapterSpec.Session)
      requires client.Valid()
      modifies client
      ensures client.Valid()
      ensures (client.Contents(), created) == AdapterSpec.CreateSession(old(client.Contents()), session)
    {
      client.HSet(SessionKey(session.sessionToken), AdapterSpec.SessionFields(session));
      created := session;
    }

    method GetSessionAndUser(sessionToken: string) returns (found: Option<AdapterSpec.SessionAndUser>)
      ensures found == AdapterSpec.GetSessionAndUser(client.Contents(), sessionToken)
    {
      var session := client.HGetAll(SessionKey(sessionToken));
      if session.None? {
        return None;
      }
      var user := LoadUser(client, AdapterSpec.Interpolate(session.value, "userId"));
      if user.None? {
        return None;
      }
      found := Some(AdapterSpec.SessionAndUser(session.value, user.value));
    }

    method UpdateSession(session: Record) returns (updated: Option<Record>)
      requires client.Valid() && "sessionToken" in session
      modifies client
      ensures client.Valid()
      ensures (client.Contents(), updated) == AdapterSpec.UpdateSession(old(client.Contents()), session)
    {
      var sessionToken := session["sessionToken"];
      var originalSession := client.HGetAll(SessionKey(sessionToken));
      if originalSession.None? {
        return None;
      }
      var newSession := originalSession.value + session;
      client.HSet(SessionKey(sessionToken), newSession);
      updated := Some(newSession);
    }

    method DeleteSession(sessionToken: string)
      requires client.Valid()
      modifies client
      ensures client.Valid()
      ensures client.Contents() == AdapterSpec.DeleteSession(old(client.Contents()), sessionToken)
    {
      client.Del(SessionKey(sessionToken));
    }
  }
}
