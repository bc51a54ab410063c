/**
  The profile repository and the push step (app.py, lines 17-24 and 153-185): the repository
  is looked up under the authenticated user's own login as its name, and README.md is published
  to it on the default branch.
*/
module ProfileRepository {
  import opened Wrappers
  import opened RepositoryPublisher

  /** The authenticated user of the hosting API and the repositories it owns, by name. */
  class Account {
    const login: string
    const repos: map<string, Repository>

    constructor (login: string, repos: map<string, Repository>)
      ensures this.login == login && this.repos == repos
    {
      this.login := login;
      this.repos := repos;
    }

    /** Every repository of the account is owned by it and listed under its own name. */
    ghost predicate Valid()
      reads this
    {
      forall n :: n in repos ==> repos[n].owner == login && repos[n].name == n
    }
  }

  /**
    Looks up the repository named `username` among the authenticated user's own repositories;
    a failed lookup yields nothing.
  */
  function CheckSpecialRepository(username: string, account: Account): (repo: Option<Repository>)
    reads account
    ensures repo.Some? <==> username in account.repos
    ensures account.Valid() && repo.Some? ==> repo.value.owner == account.login && repo.value.name == username
    ensures repo.Some? ==> repo.value == account.repos[username]
  {
    if username in account.repos then Some(account.repos[username]) else None
  }

  /** The profile repository of the account: the one whose name is the account's login. */
  lemma SpecialRepositoryIsNamedAfterLogin(account: Account)
    requires account.Valid()
    ensures var repo := CheckSpecialRepository(account.login, account);
            repo.Some? ==> repo.value.name == repo.value.owner == account.login
  {
  }

  datatype PushOutcome =
    | NothingToPush
    | MissingToken
    | AuthenticationFailed
    | MissingRepository(name: string)
    | Pushed(ok: bool)

  /** The repository a push may change: the account's profile repository, when it has one. */
  function Target(account: Option<Account>): (targets: set<Repository>)
    reads if account.Some? then {account.value} else {}
  {
    if account.Some? && account.value.login in account.value.repos
    then {account.value.repos[account.value.login]}
    else {}
  }

  /**
    "Push to GitHub" for the stored markdown. `account` is the authenticated user, or None
    when authentication raised. Publishing happens only with markdown to push, a token, and a
    repository named after the login; it then goes to that repository's default branch.
  */
  method PushReadme(markdown: Option<string>, githubToken: string, account: Option<Account>)
    returns (outcome: PushOutcome)
    requires account.Some? ==> account.value.Valid()
    modifies Target(account)
    ensures markdown.None? || markdown.value == "" ==> outcome == NothingToPush
    ensures markdown.Some? && markdown.value != "" && githubToken == "" ==> outcome == MissingToken
    ensures (markdown.Some? && markdown.value != "" && githubToken != "" && account.None?)
              ==> outcome == AuthenticationFailed
    ensures (markdown.Some? && markdown.value != "" && githubToken != "" && account.Some?
             && account.value.login !in account.value.repos)
              ==> outcome == MissingRepository(account.value.login)
    ensures outcome.Pushed? <==> markdown.Some? && markdown.value != "" && githubToken != ""
                                 && account.Some? && account.value.login in account.value.repos
    ensures outcome.Pushed? ==>
              var repo := account.value.repos[account.value.login];
              var p := PublishReadme(old(repo.files), old(repo.oracle), markdown.value, DefaultBranch);
              && repo.oracle == old(repo.oracle)
              && repo.owner == account.value.login && repo.name == account.value.login
              && outcome.ok == p.ok && repo.files == p.files && repo.calls == old(repo.calls) + p.calls
    ensures !outcome.Pushed? ==> forall r :: r in Target(account) ==> unchanged(r)
  {
    if markdown.None? || markdown.value == "" {
      return NothingToPush;
    }
    if githubToken == "" {
      return MissingToken;
    }
    if account.None? {
      return AuthenticationFailed;
    }
    var username := account.value.login;
    var repo := CheckSpecialRepository(username, account.value);
    if repo.None? {
      return MissingRepository(username);
    }
    var ok := UpdateReadme(repo.value, markdown.value);
    outcome := Pushed(ok);
  }
}
