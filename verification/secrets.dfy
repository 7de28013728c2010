/**
 * The secret-handling helpers of the extension: deduplication of a list of
 * secrets by key, fetching and decrypting the secrets of an environment,
 * preparing an upload batch and a merge request. The GraphQL calls are not
 * modelled: what they return is a parameter and what is sent is a result.
 */
module SecretSync {
  import opened Common
  import opened JsObjects
  import opened SecretCrypto

  // ---------------------------------------------------------------------
  // removeDuplicateSecrete
  // ---------------------------------------------------------------------

  /** One secret per key, each holding the value of the last secret with that key, in order of first appearance. */
  function Deduplicated(data: seq<Entry>): Dict
  {
    PutAll([], data)
  }

  /**
   * `removeDuplicateSecrete`. A secret replaces the one kept for its key when
   * none is kept yet, when the kept one has an empty key, or when the values
   * differ; when the values are equal, keeping the earlier one is the same.
   */
  method RemoveDuplicateSecrets(data: seq<Entry>) returns (cleanArr: seq<Entry>)
    ensures cleanArr == Deduplicated(data)
    ensures DistinctKeys(cleanArr)
  {
    var comparisonMap := FillComparisonMap(data);
    cleanArr := CollectValues(comparisonMap);
  }

  /** The `data.map(...)` pass: the secret kept for each key, in order of first appearance. */
  method FillComparisonMap(data: seq<Entry>) returns (comparisonMap: Dict)
    ensures comparisonMap == PutAll([], data)
    ensures DistinctKeys(comparisonMap)
  {
    comparisonMap := [];
    var i := 0;
    while i < |data|
      invariant 0 <= i <= |data|
      invariant comparisonMap == PutAll([], data[..i])
    {
      var currentSecret := data[i];
      var stored := Get(comparisonMap, currentSecret.key);
      PutAllPrefix([], data, i);
      if stored.None? || currentSecret.key == "" || stored.value != currentSecret.value {
        comparisonMap := Put(comparisonMap, currentSecret.key, currentSecret.value);
      } else {
        PutSame(comparisonMap, currentSecret.key, currentSecret.value);
      }
      i := i + 1;
    }
    assert data[..i] == data;
    PutAllDistinct([], data);
  }

  /** `Object.keys(comparisonMap).map(key => cleanArr.push(comparisonMap[key]))`: the kept secrets in key order. */
  method CollectValues(comparisonMap: Dict) returns (cleanArr: seq<Entry>)
    requires DistinctKeys(comparisonMap)
    ensures cleanArr == comparisonMap
  {
    cleanArr := [];
    var j := 0;
    while j < |comparisonMap|
      invariant 0 <= j <= |comparisonMap|
      invariant cleanArr == comparisonMap[..j]
    {
      var key := comparisonMap[j].key;
      KeyIndexDistinct(comparisonMap, j);
      cleanArr := cleanArr + [Entry(key, Get(comparisonMap, key).value)];
      assert comparisonMap[..j + 1] == comparisonMap[..j] + [comparisonMap[j]];
      j := j + 1;
    }
    assert comparisonMap[..j] == comparisonMap;
  }

  /** Writing the value a key already holds changes nothing. */
  lemma PutSame(d: Dict, k: string, v: string)
    requires Get(d, k) == Some(v)
    ensures Put(d, k, v) == d
  {
    var i := KeyIndex(d, k).value;
    assert d[i] == Entry(k, v);
  }

  /** In an object with distinct keys, the entry at `j` is the one its key finds. */
  lemma KeyIndexDistinct(d: Dict, j: nat)
    requires DistinctKeys(d) && j < |d|
    ensures KeyIndex(d, d[j].key) == Some(j)
  {
    var r := KeyIndex(d, d[j].key);
    assert r.Some?;
    assert !(r.value < j) && !(j < r.value);
  }

  /** Exactly the keys of the input survive, once each, each with the value of its last occurrence. */
  lemma DeduplicatedKeys(data: seq<Entry>, k: string)
    ensures DistinctKeys(Deduplicated(data))
    ensures (exists i :: 0 <= i < |Deduplicated(data)| && Deduplicated(data)[i].key == k)
        <==> (exists j :: 0 <= j < |data| && data[j].key == k)
    ensures Get(Deduplicated(data), k) == LastValue(data, k)
  {
    PutAllDistinct([], data);
    PutAllGet([], data, k);
    GetSome(Deduplicated(data), k);
    LastValueSome(data, k);
  }

  /** Deduplicating twice gives the same list as deduplicating once. */
  lemma DeduplicatedIdempotent(data: seq<Entry>)
    ensures Deduplicated(Deduplicated(data)) == Deduplicated(data)
  {
    PutAllDistinct([], data);
    PutAllRebuilds(Deduplicated(data));
  }

  // ---------------------------------------------------------------------
  // fetchRawSecrets
  // ---------------------------------------------------------------------

  /** One listed secret, key and value encrypted, with the `member` flag of its project (its truthiness). */
  datatype RemoteSecret = RemoteSecret(key: string, value: string, projectMember: bool)

  /** `{ key, value }` after decryption; a field whose decryption threw is `undefined`. */
  datatype DecryptedSecret = DecryptedSecret(key: Option<string>, value: Option<string>)

  const PermissionBefore := "You don't have enough permission to update/upload/delete secrets under the "
  const PermissionAfter := " environment."

  /** The message of the error thrown when the user may not read the environment's secrets. */
  function PermissionMessage(environment: string): string
  {
    PermissionBefore + environment + PermissionAfter
  }

  /** Whether the user may read the list: an empty list is allowed, otherwise its first secret's project decides. */
  predicate CanFetch(list: seq<RemoteSecret>)
  {
    |list| > 0 ==> list[0].projectMember
  }

  function Decrypted(c: Cipher, machineId: string, rsaKey: Option<string>, s: RemoteSecret): DecryptedSecret
  {
    DecryptedSecret(DecryptSecrets(c, s.key, rsaKey, machineId), DecryptSecrets(c, s.value, rsaKey, machineId))
  }

  /** The decrypted pair of every listed secret, in list order. */
  function DecryptAll(c: Cipher, machineId: string, rsaKey: Option<string>, list: seq<RemoteSecret>): (r: seq<DecryptedSecret>)
    ensures |r| == |list|
    ensures forall i :: 0 <= i < |list| ==> r[i] == Decrypted(c, machineId, rsaKey, list[i])
  {
    seq(|list|, i requires 0 <= i < |list| => Decrypted(c, machineId, rsaKey, list[i]))
  }

  /**
   * `fetchRawSecrets`: `secrets` is what the server returned (`None` when it
   * returned nothing, so that reading `secrets.list` throws). The pairs are
   * pushed as their decryptions finish, so only their multiset is promised.
   */
  method FetchRawSecrets(c: Cipher, machineId: string, rsaKey: Option<string>, environment: string,
                         secrets: Option<seq<RemoteSecret>>)
    returns (r: Result<seq<DecryptedSecret>, JsError>)
    ensures secrets.None? ==> r == Failure(TypeError("secrets.list"))
    ensures secrets.Some? && !CanFetch(secrets.value) ==> r == Failure(Thrown(PermissionMessage(environment)))
    ensures secrets.Some? && CanFetch(secrets.value) ==>
      r.Success? && multiset(r.value) == multiset(DecryptAll(c, machineId, rsaKey, secrets.value))
  {
    if secrets.None? {
      return Failure(TypeError("secrets.list"));
    }
    var list := secrets.value;
    var userCanFetchSecretUnderEnvironment := if |list| > 0 then list[0].projectMember else true;
    if !userCanFetchSecretUnderEnvironment {
      return Failure(Thrown(PermissionMessage(environment)));
    }
    var secretArray: seq<DecryptedSecret> := [];
    var i := 0;
    while i < |list|
      invariant 0 <= i <= |list|
      invariant secretArray == DecryptAll(c, machineId, rsaKey, list[..i])
    {
      var value := DecryptSecrets(c, list[i].value, rsaKey, machineId);
      var key := DecryptSecrets(c, list[i].key, rsaKey, machineId);
      secretArray := secretArray + [DecryptedSecret(key, value)];
      i := i + 1;
    }
    assert list[..i] == list;
    return Success(secretArray);
  }

  /** Secrets the server holds encrypted under the session key decrypt to the pairs that were stored. */
  lemma FetchRoundTrip(c: Cipher, machineId: string, rsaKey: Option<string>, list: seq<RemoteSecret>, plain: seq<Entry>)
    requires RoundTrips(c) && |list| == |plain|
    requires forall i :: 0 <= i < |list| ==>
      list[i].key == EncryptSecrets(c, plain[i].key, rsaKey, machineId) &&
      list[i].value == EncryptSecrets(c, plain[i].value, rsaKey, machineId)
    ensures forall i :: 0 <= i < |list| ==>
      DecryptAll(c, machineId, rsaKey, list)[i] == DecryptedSecret(Some(plain[i].key), Some(plain[i].value))
  {
    forall i | 0 <= i < |list|
      ensures DecryptAll(c, machineId, rsaKey, list)[i] == DecryptedSecret(Some(plain[i].key), Some(plain[i].value))
    {
      DecryptEncrypt(c, plain[i].key, rsaKey, machineId);
      DecryptEncrypt(c, plain[i].value, rsaKey, machineId);
    }
  }

  // ---------------------------------------------------------------------
  // uploadSecretsToOnboardbase
  // ---------------------------------------------------------------------

  /** One element of the `addSecrets` batch. */
  datatype AddSecretInput = AddSecretInput(key: string, value: string, comment: string, environmentId: string)

  /** `env.find(secret => secret.key === k)`: the first fetched pair whose key is `k`. */
  function Find(env: seq<DecryptedSecret>, k: string): (r: Option<DecryptedSecret>)
    ensures r.Some? ==> r.value in env && r.value.key == Some(k)
    ensures r.None? ==> forall i :: 0 <= i < |env| ==> env[i].key != Some(k)
    ensures r.Some? ==> exists i :: 0 <= i < |env| && env[i] == r.value && forall j :: 0 <= j < i ==> env[j].key != Some(k)
    decreases |env|
  {
    if |env| == 0 then None
    else if env[0].key == Some(k) then Some(env[0])
    else
      var r := Find(env[1..], k);
      assert r.Some? ==> exists i :: 0 <= i < |env| && env[i] == r.value && forall j :: 0 <= j < i ==> env[j].key != Some(k) by {
        if r.Some? {
          var i :| 0 <= i < |env[1..]| && env[1..][i] == r.value && forall j :: 0 <= j < i ==> env[1..][j].key != Some(k);
          assert env[i + 1] == r.value;
          assert forall j :: 0 <= j < i + 1 ==> env[j].key != Some(k) by {
            forall j | 0 <= j < i + 1 ensures env[j].key != Some(k) { if j > 0 { assert env[j] == env[1..][j - 1]; } }
          }
        }
      }
      r
  }

  /**
   * The filter on existing secrets: with a non-empty exclude list, a secret
   * stays unless its key is exactly one of the listed keys; otherwise it
   * stays when its key is truthy, that is defined and not empty.
   */
  predicate KeepExisting(exclude: Option<seq<string>>, s: DecryptedSecret)
  {
    if exclude.Some? && |exclude.value| > 0 then !(s.key.Some? && s.key.value in exclude.value)
    else s.key.Some? && s.key.value != ""
  }

  /** The batch element one object entry becomes: the key upper-cased, then each field encrypted under the session key. */
  function Outgoing(c: Cipher, machineId: string, key: Option<string>, environmentId: string, e: Entry): AddSecretInput
  {
    AddSecretInput(EncryptSecrets(c, ToUpper(e.key), key, machineId),
                   EncryptSecrets(c, e.value, key, machineId),
                   EncryptSecrets(c, "", key, machineId),
                   environmentId)
  }

  /** The whole batch: one element per entry, in entry order. */
  function Batch(c: Cipher, machineId: string, key: Option<string>, environmentId: string, parsedJSON: Dict): (r: seq<AddSecretInput>)
    ensures |r| == |parsedJSON|
    ensures forall i :: 0 <= i < |parsedJSON| ==> r[i] == Outgoing(c, machineId, key, environmentId, parsedJSON[i])
  {
    seq(|parsedJSON|, i requires 0 <= i < |parsedJSON| => Outgoing(c, machineId, key, environmentId, parsedJSON[i]))
  }

  /**
   * `uploadSecretsToOnboardbase`. `key` is the session key used both to
   * decrypt the fetched secrets and to encrypt the batch; `fetched` is what
   * the server lists. The result is the batch handed to `addSecrets`;
   * `secretsToDelete` and `existingSecrets` are computed as in the source and
   * returned for inspection, although nothing sends them.
   */
  method UploadSecretsToOnboardbase(c: Cipher, machineId: string, key: Option<string>, environmentId: string,
                                    currentEnvironment: string, fetched: Option<seq<RemoteSecret>>,
                                    parsedJSON: Dict, exclude: Option<seq<string>>, action: Option<string>)
    returns (r: Result<seq<AddSecretInput>, JsError>,
             secretsToDelete: seq<Option<DecryptedSecret>>, existingSecrets: seq<DecryptedSecret>)
    ensures fetched.None? ==> r == Failure(TypeError("secrets.list"))
    ensures fetched.Some? && !CanFetch(fetched.value) ==> r == Failure(Thrown(PermissionMessage(currentEnvironment)))
    ensures fetched.Some? && CanFetch(fetched.value) && action == Some("DELETE") && exclude.None? ==>
      r == Failure(TypeError("excludeFromExistingSecrets.map"))
    ensures fetched.Some? && CanFetch(fetched.value) && !(action == Some("DELETE") && exclude.None?) ==>
      r == Success(Batch(c, machineId, key, environmentId, parsedJSON))
    ensures r.Success? && action == Some("DELETE") ==>
      var env := DecryptAll(c, machineId, key, fetched.value);
      |secretsToDelete| == |exclude.value| &&
      forall i :: 0 <= i < |secretsToDelete| ==>
        (secretsToDelete[i].Some? ==> secretsToDelete[i].value in env && secretsToDelete[i].value.key == Some(ToUpper(exclude.value[i]))) &&
        (secretsToDelete[i].None? ==> forall s :: s in env ==> s.key != Some(ToUpper(exclude.value[i])))
    ensures r.Success? && action != Some("DELETE") ==> secretsToDelete == []
    ensures r.Success? ==>
      multiset(existingSecrets) == multiset(Filter(DecryptAll(c, machineId, key, fetched.value), s => KeepExisting(exclude, s)))
  {
    secretsToDelete, existingSecrets := [], [];
    var fetchResult := FetchRawSecrets(c, machineId, key, currentEnvironment, fetched);
    if fetchResult.Failure? {
      return Failure(fetchResult.error), secretsToDelete, existingSecrets;
    }
    var env := fetchResult.value;
    ghost var all := DecryptAll(c, machineId, key, fetched.value);
    SameMembers(env, all);
    if action == Some("DELETE") {
      if exclude.None? {
        return Failure(TypeError("excludeFromExistingSecrets.map")), secretsToDelete, existingSecrets;
      }
      secretsToDelete := LookUpDeletions(env, exclude.value);
    }
    existingSecrets := KeptExisting(env, exclude);
    FilterPermutation(env, all, s => KeepExisting(exclude, s));
    var newSecrets := NewSecrets(c, machineId, key, environmentId, parsedJSON);
    return Success(newSecrets), secretsToDelete, existingSecrets;
  }

  lemma SameMembers<T>(a: seq<T>, b: seq<T>)
    requires multiset(a) == multiset(b)
    ensures forall x :: x in a <==> x in b
  {
    forall x
      ensures x in a <==> x in b
    {
      assert x in a <==> multiset(a)[x] > 0;
      assert x in b <==> multiset(b)[x] > 0;
    }
  }

  /** `secretsToDelete`: for each excluded key, the first fetched pair whose key is that key upper-cased, or `undefined`. */
  method LookUpDeletions(env: seq<DecryptedSecret>, exclude: seq<string>) returns (secretsToDelete: seq<Option<DecryptedSecret>>)
    ensures |secretsToDelete| == |exclude|
    ensures forall j :: 0 <= j < |exclude| ==>
      (secretsToDelete[j].Some? ==> secretsToDelete[j].value in env && secretsToDelete[j].value.key == Some(ToUpper(exclude[j]))) &&
      (secretsToDelete[j].None? ==> forall s :: s in env ==> s.key != Some(ToUpper(exclude[j])))
  {
    secretsToDelete := [];
    var i := 0;
    while i < |exclude|
      invariant 0 <= i <= |exclude|
      invariant |secretsToDelete| == i
      invariant forall j :: 0 <= j < i ==> secretsToDelete[j] == Find(env, ToUpper(exclude[j]))
    {
      secretsToDelete := secretsToDelete + [Find(env, ToUpper(exclude[i]))];
      i := i + 1;
    }
  }

  /** `existingSecrets`: the fetched pairs the exclude filter keeps, in fetched order. */
  method KeptExisting(env: seq<DecryptedSecret>, exclude: Option<seq<string>>) returns (existingSecrets: seq<DecryptedSecret>)
    ensures existingSecrets == Filter(env, s => KeepExisting(exclude, s))
  {
    var keep := s => KeepExisting(exclude, s);
    existingSecrets := [];
    var i := 0;
    while i < |env|
      invariant 0 <= i <= |env|
      invariant existingSecrets == Filter(env[..i], keep)
    {
      var parsedSecret := env[i];
      FilterConcat(env[..i], [parsedSecret], keep);
      assert env[..i + 1] == env[..i] + [parsedSecret];
      if exclude.Some? && |exclude.value| > 0 {
        if !(parsedSecret.key.Some? && parsedSecret.key.value in exclude.value) {
          existingSecrets := existingSecrets + [parsedSecret];
        }
      } else {
        if parsedSecret.key.Some? && parsedSecret.key.value != "" {
          existingSecrets := existingSecrets + [parsedSecret];
        }
      }
      i := i + 1;
    }
    assert env[..i] == env;
  }

  /** `newSecrets`: the entries of the object in order, each made into a batch element. */
  method NewSecrets(c: Cipher, machineId: string, key: Option<string>, environmentId: string, parsedJSON: Dict)
    returns (newSecrets: seq<AddSecretInput>)
    ensures newSecrets == Batch(c, machineId, key, environmentId, parsedJSON)
  {
    newSecrets := [];
    var k := 0;
    while k < |parsedJSON|
      invariant 0 <= k <= |parsedJSON|
      invariant newSecrets == Batch(c, machineId, key, environmentId, parsedJSON[..k])
    {
      var e := parsedJSON[k];
      var secret := AddSecretInput(EncryptSecrets(c, ToUpper(e.key), key, machineId),
                                   EncryptSecrets(c, e.value, key, machineId),
                                   EncryptSecrets(c, "", key, machineId),
                                   environmentId);
      newSecrets := newSecrets + [secret];
      k := k + 1;
    }
    assert parsedJSON[..k] == parsedJSON;
  }

  /**
   * With a cipher that round-trips, the batch decrypts to the entries of the
   * object with their keys upper-cased and an empty comment, one per entry
   * and in entry order.
   */
  lemma BatchRoundTrip(c: Cipher, machineId: string, key: Option<string>, environmentId: string, parsedJSON: Dict)
    requires RoundTrips(c)
    ensures var b := Batch(c, machineId, key, environmentId, parsedJSON);
      |b| == |parsedJSON| &&
      forall i :: 0 <= i < |b| ==>
        DecryptSecrets(c, b[i].key, key, machineId) == Some(ToUpper(parsedJSON[i].key)) &&
        DecryptSecrets(c, b[i].value, key, machineId) == Some(parsedJSON[i].value) &&
        DecryptSecrets(c, b[i].comment, key, machineId) == Some("") &&
        b[i].environmentId == environmentId
  {
    var b := Batch(c, machineId, key, environmentId, parsedJSON);
    forall i | 0 <= i < |b|
      ensures DecryptSecrets(c, b[i].key, key, machineId) == Some(ToUpper(parsedJSON[i].key))
      ensures DecryptSecrets(c, b[i].value, key, machineId) == Some(parsedJSON[i].value)
      ensures DecryptSecrets(c, b[i].comment, key, machineId) == Some("")
    {
      DecryptEncrypt(c, ToUpper(parsedJSON[i].key), key, machineId);
      DecryptEncrypt(c, parsedJSON[i].value, key, machineId);
      DecryptEncrypt(c, "", key, machineId);
    }
  }

  /**
   * Upper-casing happens per entry and nothing merges the results: keys that
   * differ only in case are sent as two secrets with the same key.
   */
  lemma BatchKeepsCaseTwins(c: Cipher, machineId: string, key: Option<string>, environmentId: string)
    requires RoundTrips(c)
    ensures var b := Batch(c, machineId, key, environmentId, [Entry("a", "1"), Entry("A", "2")]);
      |b| == 2 &&
      DecryptSecrets(c, b[0].key, key, machineId) == Some("A") &&
      DecryptSecrets(c, b[1].key, key, machineId) == Some("A")
  {
    var d := [Entry("a", "1"), Entry("A", "2")];
    BatchRoundTrip(c, machineId, key, environmentId, d);
    assert ToUpper("a") == "A" && ToUpper("A") == "A";
  }

  // ---------------------------------------------------------------------
  // createMergeRequest
  // ---------------------------------------------------------------------

  /** The secret of a merge request; its key keeps its case. */
  datatype BaseAddSecretInput = BaseAddSecretInput(key: string, value: string, comment: string)

  /** What `addMergeRequest` receives: the one secret, and the environment and the comment in plain text. */
  datatype MergeRequest = MergeRequest(secret: BaseAddSecretInput, environmentId: string, comment: string)

  function CreateMergeRequest(c: Cipher, machineId: string, key: Option<string>, environmentId: string,
                              env: Entry, comments: string): MergeRequest
  {
    MergeRequest(BaseAddSecretInput(EncryptSecrets(c, env.key, key, machineId),
                                    EncryptSecrets(c, env.value, key, machineId),
                                    EncryptSecrets(c, comments, key, machineId)),
                 environmentId, comments)
  }

  /** A merge request decrypts to the key as given, not upper-cased, with its value and comment. */
  lemma MergeRequestRoundTrip(c: Cipher, machineId: string, key: Option<string>, environmentId: string,
                              env: Entry, comments: string)
    requires RoundTrips(c)
    ensures var m := CreateMergeRequest(c, machineId, key, environmentId, env, comments);
      DecryptSecrets(c, m.secret.key, key, machineId) == Some(env.key) &&
      DecryptSecrets(c, m.secret.value, key, machineId) == Some(env.value) &&
      DecryptSecrets(c, m.secret.comment, key, machineId) == Some(comments) &&
      m.comment == comments && m.environmentId == environmentId
  {
    DecryptEncrypt(c, env.key, key, machineId);
    DecryptEncrypt(c, env.value, key, machineId);
    DecryptEncrypt(c, comments, key, machineId);
  }

  /** The same lower-case key goes up upper-cased in an upload but unchanged in a merge request. */
  lemma MergeRequestVersusUpload(c: Cipher, machineId: string, key: Option<string>, environmentId: string, comments: string)
    requires RoundTrips(c)
    ensures DecryptSecrets(c, CreateMergeRequest(c, machineId, key, environmentId, Entry("a", "1"), comments).secret.key, key, machineId) == Some("a")
    ensures DecryptSecrets(c, Batch(c, machineId, key, environmentId, [Entry("a", "1")])[0].key, key, machineId) == Some("A")
  {
    MergeRequestRoundTrip(c, machineId, key, environmentId, Entry("a", "1"), comments);
    BatchRoundTrip(c, machineId, key, environmentId, [Entry("a", "1")]);
    assert ToUpper("a") == "A";
  }
}
