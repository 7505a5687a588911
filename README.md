# Redis adapter for Auth.js, modelled in Dafny

This project models `packages/adapter-redis/src/index.ts`, the storage adapter that
keeps the users, provider accounts, sessions and verification tokens of an
authentication framework in Redis. Each record is a Redis hash at a key built from
the fixed prefix `authjs`, an entity prefix and a natural identifier. Each user also
has a Redis set of `<provider>:<providerAccountId>` members that names the user's
linked accounts.

Files:

- `wrappers.dfy`: `Option`, which stands where the TypeScript returns `null`.
- `keys.dfy` (module `Keys`): the key prefixes and key templates. Lemmas show that
  the keys of one kind determine their identifier and that keys of different kinds
  never meet, except a user key and an accounts-set key. They also show where the scheme is not injective: a provider holding
  `:`, and a user key `authjs:user:<id>:accounts` that is also the accounts-set key
  of `<id>`.
- `redis_store.dfy` (module `RedisStore`): the keyspace as two maps, one of hashes
  and one of sets. It gives the commands the adapter issues as functions on that
  value: HGETALL, HSET (supplied fields win, other fields survive), DEL, SADD, SREM
  and SMEMBERS. The class `Store` has the fields `hashes` and `sets` and one method
  per command. Each method is proved to do what its function says.
- `adapter_spec.dfy` (module `AdapterSpec`): one function per adapter operation.
  Each function issues the same commands as the source, in the same order and under
  the same conditions, and its contract states the effect. The lemmas prove the
  properties of the design: single-use tokens, the create/get round trip, link and
  unlink coherence, idempotent unlink, the delete cascade and what it leaves alone,
  and merge-on-update.
- `redis_adapter.dfy` (module `Adapter`): the adapter itself. It has the
  module-level `getUser`/`setUser` helpers (`LoadUser`/`SaveUser`) and the class
  `RedisAdapter`, which holds the `client: Store`. Each method calls the `Store`
  commands in the source's order and is proved to leave the keyspace, and to
  return, exactly what the `AdapterSpec` function of the same name gives, except
  that `CreateUser`, `UpdateUser` and `SaveUser` are all specified by
  `AdapterSpec.SetUser`, and `LoadUser` by `AdapterSpec.GetUser`. The loop
  of `deleteUser` is the method `DeleteAccounts`.

Assumptions the model makes explicit:

- **One store.** `getUser` and `setUser` use a client created at module level
  (index.ts:10). Every adapter method uses the client passed to `RedisAdapter`
  (index.ts:31). The model has one store: it assumes both clients reach the same
  database and passes the adapter's client to the helpers.
- **Absent records.** Real Redis answers HGETALL on a missing key with an empty hash,
  which is a truthy object in JavaScript. The model follows the evident intent of the
  `if (!x)` tests (index.ts:22, 80, 103, 111, 138, 149): a missing hash reads as
  `None`. Redis never stores an empty hash or set, and `WellFormed` keeps that
  invariant: SREM of the last member removes the set, and HSET needs at least one
  field. So `None` is exactly Redis's empty answer. This matters most for users
  created by the adapter: their hash lives under the email key only, so
  `getUser(id)` finds nothing when the id differs from the email. In the model,
  `deleteUser` by such an id then does nothing and `getSessionAndUser` of their
  session returns `None` (`CreateThenDeleteById`). The literal code would go on:
  `deleteUser` would DEL `authjs:user:<id>` and `authjs:user:undefined` and the
  record of every member of the user's accounts set, and `getSessionAndUser`
  would return the session with the user `{}`. Likewise `getUserByAccount` of an
  unknown account would go on to `getUser` of `undefined` and return `{}` instead
  of `null` (index.ts:79-81), and `updateSession` of a missing session would HSET
  the supplied fields and return them, creating the session instead of returning
  `null` (index.ts:148-157). The `None` branches of `GetUserByAccount` and
  `UpdateSession` follow the intent, not the literal code.
- **Id and email keys stay separate.** `createUser` and `updateUser` write only
  `authjs:user:<email>`. `getUser(id)` reads `authjs:user:<id>`.
  `SetUserWritesOnlyEmailKey` states that a lookup by any other id sees no change.
- **Template interpolation.** A field read back from Redis and spliced into a key
  (`data.userId`, `user.email`, `session.userId`) becomes `"undefined"` when it is
  missing (`AdapterSpec.Interpolate`). Fields that the framework's types guarantee
  on input are preconditions: a user's `email`, an account's `userId`, `provider`
  and `providerAccountId`, and the `sessionToken` of a session update.
- **Equality of tokens** is the strict `===` of index.ts:57. A stored hash without a
  `token` field never matches.

Where the adapter's intended design and its code differ, the model follows the code.
`updateUser` is an HSET, so it merges instead of overwriting: fields it does not
supply survive. `linkAccount` is an HSET too: relinking an account keeps the old
record's fields that the new account does not supply, such as a stale
`refresh_token` (`AdapterSpec.LinkAccount`). A user is written under the email key only, not under both id and
email. `createUser` and `createSession` return their input, not the stored record.
`createSession` does not store `expires`. No decode errors are raised: records are
flat string maps, returned as read.

Two consequences of the unescaped key scheme are proved:

- `Keys.AccountKeyCollision`: the accounts (`a:b`, `c`) and (`a`, `b:c`) share one
  record.
- `DeleteUserWithAccountsEmail`: when a user's email is `<id>:accounts`, `deleteUser`
  deletes the accounts set before it reads it. Its cascade then removes no account
  record.

The other cascade lemmas therefore carry that exclusion as a precondition.

The intended coherence of sets and records is `AccountsCoherent`: a member is in a
user's accounts set exactly when its provider-account record exists and names that
user. `unlinkAccount` keeps it (`UnlinkKeepsCoherence`). `linkAccount` keeps it when
the account is new or already belongs to the same user (`LinkKeepsCoherence`). The
code breaks it in two ways:

- Linking an account that belongs to another user leaves the member in the old
  owner's set (`RelinkBreaksCoherence`).
- `deleteUser` keeps the accounts set while the records are gone
  (`DeleteUserBreaksCoherence`).

After `deleteUser`, a reader of such a stale member gets `None` from
`getUserByAccount`. After a relink, the record wins over the set: `getUserByAccount`
returns the new owner (`RelinkReadsNewOwner`). Deleting the old owner then deletes
the record the new owner holds, so the new owner can no longer be found through
that account (`DeleteOldOwnerDeletesNewOwnersRecord`).

## Model

| member | source | states |
|---|---|---|
| Keys.TokenKey | packages/adapter-redis/src/index.ts:15 | the token key is `authjs:verification_token:<identifier>` (template of :40, :56, :58) |
| Keys.UserKey | packages/adapter-redis/src/index.ts:16 | the user key is `authjs:user:<id>` (template of :21, :27, :113-114) |
| Keys.AccountsKey | packages/adapter-redis/src/index.ts:92 | the accounts-set key is `authjs:user:<userId>:accounts` (also :105, :116) |
| Keys.AccountMember | packages/adapter-redis/src/index.ts:92 | the member is the provider, one `:`, then the provider account id, with nothing else |
| Keys.ProviderAccountKey | packages/adapter-redis/src/index.ts:18 | the provider-account key is `authjs:provider_account:<member>` (template of :78, :95, :101, :118) |
| Keys.SessionKey | packages/adapter-redis/src/index.ts:17 | the session key is `authjs:session:<sessionToken>` (template of :126, :137, :148, :156, :161) |
| AdapterSpec.Interpolate | packages/adapter-redis/src/index.ts:81 | a field of a hash read back from Redis, spliced into a key, is its value when present and `"undefined"` when missing (also :104-105, :114, :140) |
| Keys.KeysInjective | packages/adapter-redis/src/index.ts:14-18 | a token, user, accounts-set, session or provider-account key determines the identifier it was built from |
| Keys.KindsDisjoint | packages/adapter-redis/src/index.ts:14-18 | keys of different kinds never coincide, whatever the identifiers, for every pair of kinds except user key vs accounts-set key (see AccountsKeyIsUserKey) |
| Keys.AccountsKeyIsUserKey | packages/adapter-redis/src/index.ts:92 | the accounts-set key of a user is the user key of `<id>:accounts`; it equals the user key of an email exactly when the email is `<id>:accounts`, and never the user's own id key |
| Keys.AccountMemberInjective | packages/adapter-redis/src/index.ts:78 | `<provider>:<providerAccountId>` determines both parts when the provider holds no `:` |
| Keys.AccountKeyCollision | packages/adapter-redis/src/index.ts:95 | two different accounts, (`a:b`, `c`) and (`a`, `b:c`), share one provider-account key |
| RedisStore.EmptyReplyMeansAbsent | packages/adapter-redis/src/index.ts:22 | in a well-formed keyspace a hash read is never empty and a set read is empty exactly when no set is stored, so `None` stands for Redis's empty reply |
| RedisStore.HashWrite | packages/adapter-redis/src/index.ts:27 | HSET: the hash at the key carries every supplied field with its value, keeps its other fields, is exactly the supplied fields when they cover what was stored, and no other key changes |
| RedisStore.Delete | packages/adapter-redis/src/index.ts:58 | DEL: nothing is left at the key, every other key reads as before |
| RedisStore.MemberAdded | packages/adapter-redis/src/index.ts:92 | SADD: the set at the key gains the member, other sets and all hashes unchanged |
| RedisStore.MemberRemoved | packages/adapter-redis/src/index.ts:105 | SREM: the set at the key loses exactly the member, a set left empty disappears, nothing else changes |
| RedisStore.DeleteAll | packages/adapter-redis/src/index.ts:117-119 | deleting a set of keys: each of them reads as absent, every other key as before |
| RedisStore.Store.HGetAll | packages/adapter-redis/src/index.ts:21 | returns the hash at the key, None exactly when there is none; on a valid store a hash returned is never empty |
| RedisStore.Store.HSet | packages/adapter-redis/src/index.ts:27 | the store becomes HashWrite of the old store and keeps its invariant |
| RedisStore.Store.Del | packages/adapter-redis/src/index.ts:58 | the store becomes Delete of the old store |
| RedisStore.Store.SAdd | packages/adapter-redis/src/index.ts:92 | the store becomes MemberAdded of the old store |
| RedisStore.Store.SRem | packages/adapter-redis/src/index.ts:105 | the store becomes MemberRemoved of the old store |
| RedisStore.Store.SMembers | packages/adapter-redis/src/index.ts:116 | returns the set at the key, empty when there is none |
| AdapterSpec.TokenFields | packages/adapter-redis/src/index.ts:40-44 | the token hash written has exactly the fields identifier, expires and token |
| AdapterSpec.SessionFields | packages/adapter-redis/src/index.ts:125-131 | the session hash written has exactly sessionToken and userId, not expires |
| AdapterSpec.CreateVerificationToken | packages/adapter-redis/src/index.ts:36-47 | returns its input; the token key then carries the three fields, its field set is theirs plus the old hash's, and old fields not written keep their values (HSET merge; exactly the three when nothing else was stored there); every other key unchanged |
| AdapterSpec.UseVerificationToken | packages/adapter-redis/src/index.ts:49-62 | succeeds iff a hash exists under the identifier and its token field equals the supplied token; on success returns that hash and deletes only that key (every other hash and set reads as before); otherwise returns None and changes nothing |
| AdapterSpec.TokenSingleUse | packages/adapter-redis/src/index.ts:49-62 | a second use with the same arguments returns None and changes nothing |
| AdapterSpec.CreateThenUseToken | packages/adapter-redis/src/index.ts:36-62 | a created token is consumed by its own token value, the record returned carries the fields written, and the next use fails |
| AdapterSpec.GetUser | packages/adapter-redis/src/index.ts:20-24 | HGETALL of `authjs:user:<id>`: None exactly when no hash is stored there, else that hash, never empty on a well-formed keyspace; characterised by SetUserWritesOnlyEmailKey, DeleteUser and DeleteUserCascade |
| AdapterSpec.GetUserByEmail | packages/adapter-redis/src/index.ts:64-66 | HGETALL of `authjs:user:<email>`: None exactly when no hash is stored there, else that hash; the round trip with createUser is CreateUserThenGetByEmail |
| AdapterSpec.GetUserByAccount | packages/adapter-redis/src/index.ts:77-82 | HGETALL of the provider-account key, then of the user key of its `userId`: Some exactly when both hashes exist, and then the user hash; characterised by LinkThenGetUserByAccount, UnlinkThenGetUserByAccount, RelinkReadsNewOwner and DeleteOldOwnerDeletesNewOwnersRecord |
| AdapterSpec.GetSessionAndUser | packages/adapter-redis/src/index.ts:136-144 | HGETALL of the session key, then of the user key of its `userId`: Some exactly when both hashes exist, and then the pair of those two hashes; characterised by CreateSessionThenGet, DeleteSessionOnlyThatSession and CreateThenDeleteById |
| AdapterSpec.SetUser | packages/adapter-redis/src/index.ts:26-29 | returns the user; the email key then carries every field of the user, and fields stored there before that the user does not supply keep their values (HSET merge); no other key changes |
| AdapterSpec.CreateUserThenGetByEmail | packages/adapter-redis/src/index.ts:64-71 | after createUser(u), getUserByEmail(u.email) returns all of u's fields, and exactly u on a fresh key |
| AdapterSpec.SetUserWritesOnlyEmailKey | packages/adapter-redis/src/index.ts:20-29 | createUser/updateUser leave getUser(id) unchanged for every id other than the email |
| AdapterSpec.LinkAccount | packages/adapter-redis/src/index.ts:88-98 | the owner's accounts set gains `<provider>:<providerAccountId>` and no other set changes; the provider-account key carries the account's fields, keeps the old record's other fields (its field set is the union) and no other hash changes |
| AdapterSpec.LinkThenGetUserByAccount | packages/adapter-redis/src/index.ts:77-98 | after linkAccount(a), getUserByAccount for a's account equals getUser(a.userId) |
| AdapterSpec.UnlinkAccount | packages/adapter-redis/src/index.ts:100-107 | an absent account record means no change; afterwards the record is gone and every other hash is unchanged |
| AdapterSpec.UnlinkRemovesMember | packages/adapter-redis/src/index.ts:100-107 | with the record present, exactly that member leaves the set of the user the record names; every other set is unchanged |
| AdapterSpec.UnlinkIdempotent | packages/adapter-redis/src/index.ts:100-107 | unlinking twice has the effect of unlinking once |
| AdapterSpec.UnlinkThenGetUserByAccount | packages/adapter-redis/src/index.ts:77-107 | after unlinkAccount, getUserByAccount for that account returns None |
| AdapterSpec.UnlinkKeepsCoherence | packages/adapter-redis/src/index.ts:100-107 | unlinkAccount keeps coherence: a member is in a user's set iff its record exists and names that user |
| AdapterSpec.LinkKeepsCoherence | packages/adapter-redis/src/index.ts:88-98 | linkAccount keeps coherence when the account has no record yet or one naming the same user |
| AdapterSpec.RelinkBreaksCoherence | packages/adapter-redis/src/index.ts:88-98 | linking an account already linked to another user leaves the member in the old owner's set while the record names the new owner, breaking coherence |
| AdapterSpec.RelinkReadsNewOwner | packages/adapter-redis/src/index.ts:77-98 | after a relink, getUserByAccount returns getUser of the new owner, whatever the old owner's set still lists |
| AdapterSpec.DeleteOldOwnerDeletesNewOwnersRecord | packages/adapter-redis/src/index.ts:88-120 | after a relink, deleteUser of the old owner deletes the record that names the new owner, and getUserByAccount for that account returns None |
| AdapterSpec.LinkThenUnlink | packages/adapter-redis/src/index.ts:88-107 | link then unlink leaves neither the account record nor its member in the owner's set |
| AdapterSpec.DeleteUser | packages/adapter-redis/src/index.ts:109-120 | an absent user means no change; afterwards the user is absent by id |
| AdapterSpec.CreateThenDeleteById | packages/adapter-redis/src/index.ts:109-111 | for a new user whose id differs from its email, createUser then deleteUser(id) leaves the keyspace as createUser left it, and a session of that user finds no user (also :20-29, :64-71, :136-141) |
| AdapterSpec.DeleteUserReadsAccounts | packages/adapter-redis/src/index.ts:113-116 | the accounts set read after the two deletions is the original one unless the email is `<id>:accounts` |
| AdapterSpec.DeleteUserExact | packages/adapter-redis/src/index.ts:109-120 | for a present user, exactly the id key, the email key and the provider-account key of each member of the accounts set are deleted; every other hash and every other set reads as before |
| AdapterSpec.DeleteUserWithAccountsEmail | packages/adapter-redis/src/index.ts:113-116 | when the email is `<id>:accounts`, the accounts set is gone before it is read, and apart from the id key and that key every hash and set reads as before: no account record is deleted |
| AdapterSpec.DeleteUserCascade | packages/adapter-redis/src/index.ts:109-120 | every account in the user's set becomes unreachable by getUserByAccount, and the user by id and by email |
| AdapterSpec.DeleteUserKeepsSession | packages/adapter-redis/src/index.ts:109-120 | deleteUser leaves every session hash as it was |
| AdapterSpec.DeleteUserKeepsToken | packages/adapter-redis/src/index.ts:109-120 | deleteUser leaves every verification-token hash as it was |
| AdapterSpec.DeleteUserKeepsAccountsSet | packages/adapter-redis/src/index.ts:109-120 | deleteUser does not delete the user's accounts set (email not `<id>:accounts`) |
| AdapterSpec.DeleteUserBreaksCoherence | packages/adapter-redis/src/index.ts:109-120 | after deleteUser the set still lists each member while its record is gone, so the coherence of sets and records fails |
| AdapterSpec.CreateSession | packages/adapter-redis/src/index.ts:123-134 | returns its whole input; the session key then carries sessionToken and userId, its field set is theirs plus the old hash's, and old fields not written (such as an `expires` added by updateSession) keep their values (HSET merge; exactly the two when nothing else was stored there); every other key unchanged |
| AdapterSpec.CreateSessionThenGet | packages/adapter-redis/src/index.ts:123-144 | a fresh session is found with its user iff that user exists, as the two-field hash without expires, paired with the user's record |
| AdapterSpec.UpdateSession | packages/adapter-redis/src/index.ts:146-158 | no session means None and no change; otherwise stored and returned hash are equal, hold the union of fields, the supplied values win and unsupplied fields keep their values; no other key changes |
| AdapterSpec.UpdateSessionKeepsOtherFields | packages/adapter-redis/src/index.ts:146-158 | updating sessionToken and userId returns the original hash with only those two fields replaced, expires included unchanged |
| AdapterSpec.DeleteSession | packages/adapter-redis/src/index.ts:160-162 | the session key is gone, every other hash and every set at another key reads as before |
| AdapterSpec.DeleteSessionOnlyThatSession | packages/adapter-redis/src/index.ts:136-162 | deleteSession is idempotent, keeps other sessions and every user, and getSessionAndUser then returns None |
| Adapter.LoadUser | packages/adapter-redis/src/index.ts:20-24 | returns the hash at `authjs:user:<id>`, None when absent |
| Adapter.SaveUser | packages/adapter-redis/src/index.ts:26-29 | store and result are those of AdapterSpec.SetUser |
| Adapter.RedisAdapter.constructor | packages/adapter-redis/src/index.ts:31 | the adapter works on the client it is given |
| Adapter.RedisAdapter.CreateVerificationToken | packages/adapter-redis/src/index.ts:36-47 | store and result are those of AdapterSpec.CreateVerificationToken |
| Adapter.RedisAdapter.UseVerificationToken | packages/adapter-redis/src/index.ts:49-62 | store and result are those of AdapterSpec.UseVerificationToken |
| Adapter.RedisAdapter.GetUserByEmail | packages/adapter-redis/src/index.ts:64-66 | returns the hash at the user key built from the email |
| Adapter.RedisAdapter.CreateUser | packages/adapter-redis/src/index.ts:69-71 | store and result are those of AdapterSpec.SetUser |
| Adapter.RedisAdapter.GetUser | packages/adapter-redis/src/index.ts:73-75 | returns the hash at the user key built from the id |
| Adapter.RedisAdapter.GetUserByAccount | packages/adapter-redis/src/index.ts:77-82 | returns None without an account record, else the user read by the record's userId |
| Adapter.RedisAdapter.UpdateUser | packages/adapter-redis/src/index.ts:84-86 | store and result are those of AdapterSpec.SetUser |
| Adapter.RedisAdapter.LinkAccount | packages/adapter-redis/src/index.ts:88-98 | the store becomes AdapterSpec.LinkAccount of the old store |
| Adapter.RedisAdapter.UnlinkAccount | packages/adapter-redis/src/index.ts:100-107 | the store becomes AdapterSpec.UnlinkAccount of the old store |
| Adapter.RedisAdapter.DeleteUser | packages/adapter-redis/src/index.ts:109-120 | the store becomes AdapterSpec.DeleteUser of the old store |
| Adapter.RedisAdapter.DeleteAccounts | packages/adapter-redis/src/index.ts:116-119 | after the loop every provider-account key of the members read is deleted and nothing else |
| Adapter.RedisAdapter.CreateSession | packages/adapter-redis/src/index.ts:123-134 | store and result are those of AdapterSpec.CreateSession |
| Adapter.RedisAdapter.GetSessionAndUser | packages/adapter-redis/src/index.ts:136-144 | returns None when the session or its user is missing, else both hashes |
| Adapter.RedisAdapter.UpdateSession | packages/adapter-redis/src/index.ts:146-158 | store and result are those of AdapterSpec.UpdateSession |
| Adapter.RedisAdapter.DeleteSession | packages/adapter-redis/src/index.ts:160-162 | the store becomes AdapterSpec.DeleteSession of the old store |

## Left out

- Creating and connecting the Redis client (index.ts:1, 10) and the framework's adapter types (index.ts:2-8): foreign library code. Users, accounts and session updates are string maps; verification tokens and sessions are small datatypes.
- Promises and scheduling: every method runs atomically and in sequence. Races between concurrent callers are not modelled. Examples are a token consumed twice, or a session update lost between its read and its write.
- `Date.prototype.toString` of `expires` (index.ts:42): `expires` is an opaque string. Non-string field values, such as numeric token expiries in accounts, are strings too.
- Key time-to-live: the source has only TODO comments for it (index.ts:45, 132, 155).
- Real Redis's empty, truthy reply to HGETALL on a missing key: the model reads it as `None`, as the `if (!x)` tests intend. With the literal JavaScript behaviour, `getUser` of an unknown id would return `{}` instead of `null`. `deleteUser` of such an id would then DEL `authjs:user:<id>`, `authjs:user:undefined` and the record of every member of `authjs:user:<id>:accounts`, and `getSessionAndUser` would return the session with the user `{}`. This hits every user created with an id other than its email (`CreateThenDeleteById`). `getUserByAccount` of an unknown account would return `{}` from `getUser` of `undefined`, and `updateSession` of a missing session would create it from the supplied fields instead of returning `null`.
- Store errors: transport failures, WRONGTYPE replies when a hash key and a set key coincide, and the refusal of an HSET with no fields. The last is a precondition of `HashWrite` that every adapter call meets.
- JavaScript object identity: the create methods return their argument, which the model treats as the same value.
- Properties set to `undefined` in a partial session update: the supplied map holds only the fields that are present.
