/** The request schemas of the user routes (src/schemas/user.ts) and the rules
    each one amounts to. */
module UserSchemas {
  import opened Common
  import opened JsonSchema
  import opened UserModels

  const PayloadKeys: set<string> := {"firstName", "lastName", "username", "password"}

  const UserPayloadSchema := ObjectSchema(
    map[
      "firstName" := StringRule(1, Some(50)),
      "lastName" := StringRule(1, Some(50)),
      "username" := StringRule(1, Some(50)),
      "password" := StringRule(8, Some(100))],
    PayloadKeys,
    false)

  const CredentialKeys: set<string> := {"username", "password"}

  const UserCredentialsSchema := ObjectSchema(
    map[
      "username" := StringRule(1, Some(50)),
      "password" := StringRule(8, Some(100))],
    CredentialKeys,
    false)

  /** A registration body is valid exactly when it has the four properties and
      no other, the three names have 1 to 50 characters and the password 8 to
      100. */
  lemma UserPayloadRules(v: Json)
    ensures Validates(UserPayloadSchema, v) <==>
      && v.JObject?
      && v.fields.Keys == PayloadKeys
      && StringOfLength(v.fields["firstName"], 1, 50)
      && StringOfLength(v.fields["lastName"], 1, 50)
      && StringOfLength(v.fields["username"], 1, 50)
      && StringOfLength(v.fields["password"], 8, 100)
  {
    if Validates(UserPayloadSchema, v) {
      assert v.fields.Keys == PayloadKeys by {
        forall k | k in v.fields ensures k in PayloadKeys {
          assert k in UserPayloadSchema.properties;
        }
      }
    }
  }

  /** A login body is valid exactly when it has a username of 1 to 50
      characters and a password of 8 to 100, and nothing else. */
  lemma CredentialsRules(v: Json)
    ensures Validates(UserCredentialsSchema, v) <==>
      && v.JObject?
      && v.fields.Keys == CredentialKeys
      && StringOfLength(v.fields["username"], 1, 50)
      && StringOfLength(v.fields["password"], 8, 100)
  {
    if Validates(UserCredentialsSchema, v) {
      assert v.fields.Keys == CredentialKeys by {
        forall k | k in v.fields ensures k in CredentialKeys {
          assert k in UserCredentialsSchema.properties;
        }
      }
    }
  }

  /** The credentials a valid login body is read into: the body's own username
      and password, within the schema's bounds. */
  function ToCredentials(v: Json): (c: UserCredentials)
    requires Validates(UserCredentialsSchema, v)
    ensures 1 <= |c.username| <= 50 && 8 <= |c.password| <= 100
    ensures c.username == v.fields["username"].s && c.password == v.fields["password"].s
  {
    CredentialsRules(v);
    UserCredentials(v.fields["username"].s, v.fields["password"].s)
  }

  /** Every valid registration body, cut down to username and password, is a
      valid login body with the same username and password. */
  lemma PayloadProjectsToCredentials(v: Json)
    requires Validates(UserPayloadSchema, v)
    ensures Validates(UserCredentialsSchema, JObject(Project(v.fields, CredentialKeys)))
    ensures ToCredentials(JObject(Project(v.fields, CredentialKeys)))
         == UserCredentials(v.fields["username"].s, v.fields["password"].s)
  {
    UserPayloadRules(v);
    var c := JObject(Project(v.fields, CredentialKeys));
    assert c.fields.Keys == CredentialKeys;
    CredentialsRules(c);
  }
}
