/**
 * The sign-up half of the `init` command: the email address typed by the
 * user is checked, split at its last `@` into a user name and a domain,
 * and the organisation is named `<name>_<first label of the domain>`.
 * Host probing, the auth-code request itself and the polling that follows
 * sign-up are outside the model; the auth-code request appears only as a
 * step so that its position in the sequence can be stated.
 */
module Signup {
  import opened Common

  /** What `init` does with the email, in order. */
  datatype Step =
    | ShowError(message: string)
    | RequestAuthCode
    | SignUp(name: string, email: string, teamName: string)

  const MissingEmail := "Please add your email address"
  const InvalidEmail := "Invalid Email Address"

  /** `email.substring(0, email.lastIndexOf('@'))`. */
  function EmailName(email: string): string
  {
    Substring(email, 0, LastIndexOf(email, '@'))
  }

  /** `email.substring(email.lastIndexOf('@') + 1)`. */
  function EmailDomain(email: string): string
  {
    Substring(email, LastIndexOf(email, '@') + 1, |email|)
  }

  /** `domain.split('.')[0]`. */
  function TeamName(domain: string): string
  {
    Split(domain, '.')[0]
  }

  /** `${name}_${teamName}`. */
  function OrgName(name: string, teamName: string): string
  {
    name + "_" + teamName
  }

  /**
   * The steps `init` takes for the text entered in the email box
   * (`None` when the box was dismissed).
   */
  function Init(email: Option<string>): (steps: seq<Step>)
    ensures email.None? || email.value == "" <==> steps == [ShowError(MissingEmail)]
    ensures email.Some? && email.value != "" ==> |steps| == 2 && steps[0] == RequestAuthCode
  {
    if email.None? || email.value == "" then [ShowError(MissingEmail)]
    else
      var e := email.value;
      var name := EmailName(e);
      var domain := EmailDomain(e);
      if name == "" || domain == "" then [RequestAuthCode, ShowError(InvalidEmail)]
      else [RequestAuthCode, SignUp(name, e, OrgName(name, TeamName(domain)))]
  }

  /** With an `@` present, the name and the domain are the two sides of the last `@`. */
  lemma EmailParts(email: string)
    requires '@' in email
    ensures EmailName(email) + "@" + EmailDomain(email) == email
    ensures '@' !in EmailDomain(email)
  {
    var r := LastIndexOf(email, '@');
    assert EmailName(email) == email[..r];
    assert EmailDomain(email) == email[r + 1..];
    assert email == email[..r] + [email[r]] + email[r + 1..];
  }

  /** An address without `@` has an empty name and is always rejected, after the auth code was requested. */
  lemma NoAtRejected(email: string)
    requires email != "" && '@' !in email
    ensures EmailName(email) == ""
    ensures Init(Some(email)) == [RequestAuthCode, ShowError(InvalidEmail)]
  {
  }

  /**
   * A non-empty address reaches sign-up exactly when it has an `@` with
   * text on both sides of the last one; sign-up then receives the name,
   * the address unchanged and the organisation name.
   */
  lemma SignUpExactly(email: string)
    requires email != ""
    ensures Init(Some(email))[1].SignUp? <==> '@' in email && EmailName(email) != "" && EmailDomain(email) != ""
    ensures Init(Some(email))[1].SignUp? ==>
      Init(Some(email))[1] == SignUp(EmailName(email), email, EmailName(email) + "_" + TeamName(EmailDomain(email)))
  {
    if '@' !in email {
      NoAtRejected(email);
    }
  }

  /** The team name is the domain up to its first `.`, or the whole domain without one. */
  lemma TeamNameFirstLabel(domain: string)
    ensures TeamName(domain) == domain[..FirstIndex(domain, '.')]
    ensures '.' !in domain ==> TeamName(domain) == domain
    ensures '.' !in TeamName(domain)
  {
    SplitAtFirst(domain, '.');
  }

  /** An address of the form `name@team.tld` signs up the organisation `name_team`. */
  lemma ShapedAddress(name: string, team: string, tld: string)
    requires name != "" && team != "" && '@' !in team && '@' !in tld && '.' !in team
    ensures Init(Some(name + "@" + team + "." + tld)) == [RequestAuthCode, SignUp(name, name + "@" + team + "." + tld, name + "_" + team)]
  {
    var domain := team + "." + tld;
    var email := name + "@" + domain;
    assert name + "@" + team + "." + tld == email;
    assert '@' !in domain by { assert forall i :: 0 <= i < |domain| ==> domain[i] == '.' || domain[i] in team || domain[i] in tld; }
    LastAtSplit(name, domain);
    FirstLabel(team, tld);
    InitSignsUp(email, name, domain);
  }

  /** An address whose name and domain are both non-empty goes on to sign-up. */
  lemma InitSignsUp(email: string, name: string, domain: string)
    requires email != "" && EmailName(email) == name && EmailDomain(email) == domain
    requires name != "" && domain != ""
    ensures Init(Some(email)) == [RequestAuthCode, SignUp(name, email, OrgName(name, TeamName(domain)))]
  {
  }

  lemma FirstLabel(team: string, tld: string)
    requires '.' !in team
    ensures TeamName(team + "." + tld) == team
  {
    assert team + "." + tld == team + ['.'] + tld;
    SplitConcat(team, tld, '.');
    SplitNoSeparator(team, '.');
  }

  /** The last `@` of `name@domain` is the one before the domain when the domain has none. */
  lemma LastAtSplit(name: string, domain: string)
    requires '@' !in domain
    ensures EmailName(name + "@" + domain) == name
    ensures EmailDomain(name + "@" + domain) == domain
  {
    var email := name + "@" + domain;
    var r := LastIndexOf(email, '@');
    assert email[|name|] == '@';
    assert email[|name| + 1..] == domain;
    assert forall i :: |name| < i < |email| ==> email[i] == domain[i - |name| - 1];
    assert forall i :: r < i < |email| ==> email[i] == email[r + 1..][i - r - 1];
  }
}
