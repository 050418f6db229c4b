/** The repository-listing part of scripts/python/lib/MojGithub.py: fork and archive filters over an
    organisation's repositories, and three lazily filled per-type caches. */
module MojGithubLib {
  import opened Wrappers
  import opened Seqs
  import opened Text

  /** The two flags of a GitHub repository the library looks at. */
  datatype Repo = Repo(name: string, archived: bool, fork: bool)

  /** The arm of the `match` in `get_unarchived_repos` that a type string selects. */
  datatype TypeArm = AllArm | PublicArm | PrivateArm | UnderscoreArm | NoArm

  function ArmOf(t: string): (arm: TypeArm)
    ensures arm == AllArm <==> t == "all"
    ensures arm == PublicArm <==> t == "public"
    ensures arm == PrivateArm <==> t == "private"
    ensures arm == UnderscoreArm <==> t == "_"
  {
    match t
    case "all" => AllArm
    case "public" => PublicArm
    case "private" => PrivateArm
    case "_" => UnderscoreArm
    case _ => NoArm
  }

  /** The repository types the library knows; `get_unarchived_repos` answers for these only. */
  predicate IsRepoType(t: string) {
    ArmOf(t) != UnderscoreArm && ArmOf(t) != NoArm
  }

  /** The known types are exactly "all", "public" and "private". */
  lemma RepoTypesAreKnown(t: string)
    ensures IsRepoType(t) <==> t == "all" || t == "public" || t == "private"
  {
  }

  /** `_exclude_archived_repos`: the repositories that are not archived, in their original order. */
  function ExcludeArchivedRepos(repos: seq<Repo>): (r: seq<Repo>)
    ensures forall x :: x in r <==> x in repos && !x.archived
    ensures IsSubsequence(r, repos)
  {
    Filter(repos, (x: Repo) => x.archived == false)
  }

  /** `_exclude_fork_repos`: the repositories that are not forks, in their original order. */
  function ExcludeForkRepos(repos: seq<Repo>): (r: seq<Repo>)
    ensures forall x :: x in r <==> x in repos && !x.fork
    ensures IsSubsequence(r, repos)
  {
    Filter(repos, (x: Repo) => x.fork == false)
  }

  /** Dropping forks and dropping archived repositories can be done in either order. */
  lemma ExclusionsCommute(repos: seq<Repo>)
    ensures ExcludeArchivedRepos(ExcludeForkRepos(repos)) == ExcludeForkRepos(ExcludeArchivedRepos(repos))
  {
    FilterCommutes(repos, (x: Repo) => x.fork == false, (x: Repo) => x.archived == false);
  }

  /** Excluding archived repositories a second time changes nothing. */
  lemma ExcludeArchivedIdempotent(repos: seq<Repo>)
    ensures ExcludeArchivedRepos(ExcludeArchivedRepos(repos)) == ExcludeArchivedRepos(repos)
  {
    FilterKeepsAll(ExcludeArchivedRepos(repos), (x: Repo) => x.archived == false);
  }

  /** The message `get_unarchived_repos` logs for the type "_": the fixed text, then the type, which
      can be read back from the message. */
  function IncorrectParameterMessage(t: string): (msg: string)
    ensures StartsWith(msg, IncorrectParameterPrefix)
    ensures msg[|IncorrectParameterPrefix|..] == t
  {
    IncorrectParameterPrefix + t
  }

  const IncorrectParameterPrefix: string :=
    "MojGithub.get_unarchived_repos" + " called with incorrect" + " parameter: "

  class MojGithub {
    /** `org.get_repos(type=t)`: the organisation's repositories of type `t`, as GitHub lists them. */
    const getRepos: string -> seq<Repo>
    /** The private fields `__repos`, `__public_repos`, `__private_repos`; None until first read. */
    var reposCache: Option<seq<Repo>>
    var publicReposCache: Option<seq<Repo>>
    var privateReposCache: Option<seq<Repo>>
    /** The `type` argument of every `org.get_repos` call made so far, in call order. */
    var getReposCalls: seq<string>
    /** Messages written to the error log. */
    var errorLog: seq<string>

    /** A filled cache holds the fork-free listing of its type, fetched by exactly one call. */
    ghost predicate CacheValid(cache: Option<seq<Repo>>, t: string)
      reads this`getReposCalls
    {
      && (cache.Some? ==> cache.value == ExcludeForkRepos(getRepos(t)))
      && multiset(getReposCalls)[t] == if cache.Some? then 1 else 0
    }

    ghost predicate Valid()
      reads this`reposCache, this`publicReposCache, this`privateReposCache, this`getReposCalls
    {
      && CacheValid(reposCache, "all")
      && CacheValid(publicReposCache, "public")
      && CacheValid(privateReposCache, "private")
      && forall t :: t in getReposCalls ==> IsRepoType(t)
    }

    /** `__init__`: nothing cached and nothing fetched yet. */
    constructor (getRepos: string -> seq<Repo>)
      ensures Valid()
      ensures this.getRepos == getRepos
      ensures reposCache.None? && publicReposCache.None? && privateReposCache.None?
      ensures getReposCalls == [] && errorLog == []
    {
      this.getRepos := getRepos;
      reposCache, publicReposCache, privateReposCache := None, None, None;
      getReposCalls, errorLog := [], [];
    }

    /** `_get_repo_type`: one `get_repos` call, with the forks left out. */
    method GetRepoType(t: string) returns (r: seq<Repo>)
      modifies this`getReposCalls
      ensures r == ExcludeForkRepos(getRepos(t))
      ensures forall x :: x in r ==> !x.fork
      ensures getReposCalls == old(getReposCalls) + [t]
    {
      getReposCalls := getReposCalls + [t];
      r := ExcludeForkRepos(getRepos(t));
    }

    /** The `repos` property: fetches the "all" listing on first access only. */
    method Repos() returns (r: seq<Repo>)
      requires Valid()
      modifies this`reposCache, this`getReposCalls
      ensures Valid()
      ensures reposCache == Some(r)
      ensures r == ExcludeForkRepos(getRepos("all"))
      ensures old(reposCache).Some? ==> r == old(reposCache).value && getReposCalls == old(getReposCalls)
      ensures old(reposCache).None? ==> getReposCalls == old(getReposCalls) + ["all"]
      ensures publicReposCache == old(publicReposCache) && privateReposCache == old(privateReposCache)
    {
      if reposCache.None? {
        var fetched := GetRepoType("all");
        reposCache := Some(fetched);
      }
      r := reposCache.value;
    }

    /** The `public_repos` property: fetches the "public" listing on first access only. */
    method PublicRepos() returns (r: seq<Repo>)
      requires Valid()
      modifies this`publicReposCache, this`getReposCalls
      ensures Valid()
      ensures publicReposCache == Some(r)
      ensures r == ExcludeForkRepos(getRepos("public"))
      ensures old(publicReposCache).Some? ==> r == old(publicReposCache).value && getReposCalls == old(getReposCalls)
      ensures old(publicReposCache).None? ==> getReposCalls == old(getReposCalls) + ["public"]
      ensures reposCache == old(reposCache) && privateReposCache == old(privateReposCache)
    {
      if publicReposCache.None? {
        var fetched := GetRepoType("public");
        publicReposCache := Some(fetched);
      }
      r := publicReposCache.value;
    }

    /** The `private_repos` property: fetches the "private" listing on first access only. */
    method PrivateRepos() returns (r: seq<Repo>)
      requires Valid()
      modifies this`privateReposCache, this`getReposCalls
      ensures Valid()
      ensures privateReposCache == Some(r)
      ensures r == ExcludeForkRepos(getRepos("private"))
      ensures old(privateReposCache).Some? ==> r == old(privateReposCache).value && getReposCalls == old(getReposCalls)
      ensures old(privateReposCache).None? ==> getReposCalls == old(getReposCalls) + ["private"]
      ensures reposCache == old(reposCache) && publicReposCache == old(publicReposCache)
    {
      if privateReposCache.None? {
        var fetched := GetRepoType("private");
        privateReposCache := Some(fetched);
      }
      r := privateReposCache.value;
    }

    /** `get_unarchived_repos`: the cached listing of a known type without its archived repositories;
        None for any other type. `case "_"` matches only the one-character string "_", which is the
        only type that gets logged. */
    method GetUnarchivedRepos(t: string) returns (r: Option<seq<Repo>>)
      requires Valid()
      modifies this`reposCache, this`publicReposCache, this`privateReposCache, this`getReposCalls, this`errorLog
      ensures Valid()
      ensures r.Some? <==> IsRepoType(t)
      ensures r.Some? ==> r.value == ExcludeArchivedRepos(ExcludeForkRepos(getRepos(t)))
      ensures r.Some? ==> forall x :: x in r.value ==> !x.archived && !x.fork
      ensures errorLog == if ArmOf(t) == UnderscoreArm then old(errorLog) + [IncorrectParameterMessage(t)] else old(errorLog)
      ensures ArmOf(t) == AllArm ==>
        && reposCache == Some(ExcludeForkRepos(getRepos(t)))
        && getReposCalls == old(getReposCalls) + (if old(reposCache).None? then [t] else [])
        && publicReposCache == old(publicReposCache) && privateReposCache == old(privateReposCache)
      ensures ArmOf(t) == PublicArm ==>
        && publicReposCache == Some(ExcludeForkRepos(getRepos(t)))
        && getReposCalls == old(getReposCalls) + (if old(publicReposCache).None? then [t] else [])
        && reposCache == old(reposCache) && privateReposCache == old(privateReposCache)
      ensures ArmOf(t) == PrivateArm ==>
        && privateReposCache == Some(ExcludeForkRepos(getRepos(t)))
        && getReposCalls == old(getReposCalls) + (if old(privateReposCache).None? then [t] else [])
        && reposCache == old(reposCache) && publicReposCache == old(publicReposCache)
      ensures !IsRepoType(t) ==> getReposCalls == old(getReposCalls)
      ensures !IsRepoType(t) ==>
        reposCache == old(reposCache) && publicReposCache == old(publicReposCache) && privateReposCache == old(privateReposCache)
    {
      match ArmOf(t)
      case AllArm =>
        var repos := Repos();
        r := Some(ExcludeArchivedRepos(repos));
      case PublicArm =>
        var repos := PublicRepos();
        r := Some(ExcludeArchivedRepos(repos));
      case PrivateArm =>
        var repos := PrivateRepos();
        r := Some(ExcludeArchivedRepos(repos));
      case UnderscoreArm =>
        errorLog := errorLog + [IncorrectParameterMessage(t)];
        r := None;
      case NoArm =>
        r := None;
    }
  }
}
