/** The queue provider of queue/sqs_provider.go and the token entries it is made from. */
module SqsProvider {
  import opened Options

  datatype AssumeRoleResult = AssumeRoleResult(
    accessKeyId: string, secretAccessKey: string, sessionToken: string, expireTimeMillis: int, roleId: string, arn: string)

  /** What a token entry without new credentials decodes to. */
  const NO_ROLE: AssumeRoleResult := AssumeRoleResult("", "", "", 0, "", "")

  datatype Configuration = Configuration(url: string, region: string, successRefreshPeriod: int, errorRefreshPeriod: int)

  datatype Properties = Properties(assumeRoleResult: AssumeRoleResult, configuration: Configuration) {
    function Url(): string { configuration.url }
  }

  /** The credentials a client was made with. */
  datatype Client = Client(accessKeyId: string, secretAccessKey: string, sessionToken: string, region: string)

  function NewClient(p: Properties, role: AssumeRoleResult): Client {
    Client(role.accessKeyId, role.secretAccessKey, role.sessionToken, p.configuration.region)
  }

  predicate Contains(s: string, part: string) {
    exists i :: 0 <= i <= |s| && part <= s[i..]
  }

  const EXPIRED_TOKEN: string := "ExpiredToken"

  class SqsProvider {
    var queueProperties: Properties
    var client: Client
    var isTokenExpired: bool

    /** The client is the one the current role was turned into. */
    ghost predicate Valid()
      reads this
    {
      client == NewClient(queueProperties, queueProperties.assumeRoleResult)
    }

    /** What a poller of the queue at url relies on. */
    ghost predicate Serves(url: string, role: AssumeRoleResult)
      reads this
    {
      Valid() && queueProperties.Url() == url && queueProperties.assumeRoleResult == role
    }

    /** NewSqsProvider once NewSession has succeeded; when it fails there is no provider. */
    constructor (queueProperties: Properties)
      ensures Valid() && this.queueProperties == queueProperties && !isTokenExpired
      ensures client.accessKeyId == queueProperties.assumeRoleResult.accessKeyId
      ensures client.secretAccessKey == queueProperties.assumeRoleResult.secretAccessKey
      ensures client.sessionToken == queueProperties.assumeRoleResult.sessionToken
      ensures client.region == queueProperties.configuration.region
    {
      this.queueProperties := queueProperties;
      client := NewClient(queueProperties, queueProperties.assumeRoleResult);
      isTokenExpired := false;
    }

    /** One client call, and the check of its answer: code is that of an AWS error, if the call ended in one. */
    method CallClient(code: Option<string>) returns (through: Client)
      requires Valid()
      modifies this`isTokenExpired
      ensures Valid() && through == client
      ensures through.accessKeyId == queueProperties.assumeRoleResult.accessKeyId
      ensures through.secretAccessKey == queueProperties.assumeRoleResult.secretAccessKey
      ensures through.sessionToken == queueProperties.assumeRoleResult.sessionToken
      ensures through.region == queueProperties.configuration.region
      ensures isTokenExpired <==>
                old(isTokenExpired) || (code.Some? && exists i, k :: 0 <= i <= k <= |code.value| && code.value[i..k] == "ExpiredToken")
    {
      through := client;
      CheckExpiration(code);
    }

    /** The flag is set exactly if the code has ExpiredToken somewhere in it. */
    method CheckExpiration(code: Option<string>)
      modifies this`isTokenExpired
      ensures isTokenExpired <==>
                old(isTokenExpired) || (code.Some? && exists i, k :: 0 <= i <= k <= |code.value| && code.value[i..k] == "ExpiredToken")
    {
      if code.Some? {
        ContainsIs(code.value, EXPIRED_TOKEN);
        if Contains(code.value, EXPIRED_TOKEN) {
          isTokenExpired := true;
        }
      }
    }

    /** sessionOk is what NewSession answers. */
    method RefreshClient(role: AssumeRoleResult, sessionOk: bool) returns (ok: bool)
      requires Valid()
      modifies this
      ensures Valid() && ok == sessionOk
      ensures queueProperties.configuration == old(queueProperties.configuration)
      ensures queueProperties.assumeRoleResult == if ok then role else old(queueProperties.assumeRoleResult)
      ensures ok ==> client.accessKeyId == role.accessKeyId && client.secretAccessKey == role.secretAccessKey
      ensures ok ==> client.sessionToken == role.sessionToken && client.region == queueProperties.configuration.region
      ensures !ok ==> client == old(client)
      ensures isTokenExpired == (!ok && old(isTokenExpired))
    {
      if !sessionOk {
        return false;
      }
      client := NewClient(queueProperties, role);
      queueProperties := queueProperties.(assumeRoleResult := role);
      isTokenExpired := false;
      return true;
    }
  }

  /** Contained is what stands at some place. */
  lemma ContainsIs(s: string, part: string)
    ensures Contains(s, part) <==> exists i, k :: 0 <= i <= k <= |s| && s[i..k] == part
  {
    if i :| 0 <= i <= |s| && part <= s[i..] {
      assert s[i..i + |part|] == part;
    }
    if i, k :| 0 <= i <= k <= |s| && s[i..k] == part {
      assert part <= s[i..];
    }
  }
}
