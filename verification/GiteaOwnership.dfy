/** Finding, renaming or creating a destination repository, as `ensure_repository` of
    githarbor/clients/gitea.py does it, and what that means for who owns which path. */
module GiteaOwnership {
  import opened Wrappers
  import opened Text
  import opened Ownership

  datatype Path = Path(namespace: string, name: string)

  datatype Repo = Repo(id: int, description: string)

  type Repos = map<Path, Repo>

  /** A Gitea server. Changing calls that do not answer may still have taken effect. */
  class Server {
    var repos: Repos
    var nextId: int
    /** Calls that did not answer. */
    ghost var faults: nat

    method Get(path: Path) returns (r: Reply<Option<Repo>>)
      modifies this`faults
      ensures faults == old(faults) + if r.Answer? then 0 else 1
      ensures r.Answer? ==> r.value == if path in repos then Some(repos[path]) else None
    {
      var fate: Reply<()> := *;
      if fate.Answer? {
        r := Answer(if path in repos then Some(repos[path]) else None);
      } else {
        faults := faults + 1;
        r := if fate.Error? then Error else Crash;
      }
    }

    method SetDescription(path: Path, description: string) returns (r: Reply<Repo>)
      requires path in repos
      modifies this`repos, this`faults
      ensures faults == old(faults) + if r.Answer? then 0 else 1
      ensures repos == old(repos) || repos == old(repos)[path := old(repos)[path].(description := description)]
      ensures r.Answer? ==> repos == old(repos)[path := old(repos)[path].(description := description)] && r.value == repos[path]
    {
      var fate: Reply<()> := *;
      var took: bool := *;
      if fate.Answer? || took {
        repos := repos[path := repos[path].(description := description)];
      }
      faults := faults + if fate.Answer? then 0 else 1;
      r := if fate.Answer? then Answer(repos[path]) else if fate.Error? then Error else Crash;
    }

    method Rename(from: Path, to: Path, description: string) returns (r: Reply<Repo>)
      requires from in repos && to !in repos
      modifies this`repos, this`faults
      ensures faults == old(faults) + if r.Answer? then 0 else 1
      ensures repos == old(repos) || repos == (old(repos) - {from})[to := old(repos)[from].(description := description)]
      ensures r.Answer? ==> repos == (old(repos) - {from})[to := old(repos)[from].(description := description)]
    {
      var fate: Reply<()> := *;
      var took: bool := *;
      var repo := repos[from].(description := description);
      if fate.Answer? || took {
        repos := (repos - {from})[to := repo];
      }
      faults := faults + if fate.Answer? then 0 else 1;
      r := if fate.Answer? then Answer(repo) else if fate.Error? then Error else Crash;
    }

    method Create(path: Path, description: string) returns (r: Reply<Repo>)
      requires path !in repos
      modifies this
      ensures faults == old(faults) + if r.Answer? then 0 else 1
      ensures repos == old(repos) || repos == old(repos)[path := Repo(old(nextId), description)]
      ensures r.Answer? ==> repos == old(repos)[path := Repo(old(nextId), description)]
    {
      var fate: Reply<()> := *;
      var took: bool := *;
      var repo := Repo(nextId, description);
      if fate.Answer? || took {
        repos, nextId := repos[path := repo], nextId + 1;
      }
      faults := faults + if fate.Answer? then 0 else 1;
      r := if fate.Answer? then Answer(repo) else if fate.Error? then Error else Crash;
    }
  }

  // ---------------------------------------------------------------- steps

  /** Nothing that does not carry the identity's marker is changed, and whatever is new carries it
      and no other. */
  ghost predicate OwnStep(before: Repos, after: Repos, who: Identity) {
    && (forall p | p in before && !Carries(before[p].description, who) :: p in after && after[p] == before[p])
    && (forall p | p in after && (p !in before || after[p] != before[p]) ::
          Carries(after[p].description, who) && OnePhrase(after[p].description))
  }

  lemma NoStep(repos: Repos, who: Identity)
    ensures OwnStep(repos, repos, who)
  {
  }

  lemma DescribedStep(before: Repos, path: Path, description: string, who: Identity)
    requires path in before && Carries(before[path].description, who) && Carries(description, who) && OnePhrase(description)
    ensures OwnStep(before, before[path := before[path].(description := description)], who)
  {
    hide Carries, OnePhrase;
  }

  lemma CreatedStep(before: Repos, path: Path, repo: Repo, who: Identity)
    requires path !in before && Carries(repo.description, who) && OnePhrase(repo.description)
    ensures OwnStep(before, before[path := repo], who)
  {
    hide Carries, OnePhrase;
  }

  lemma RenamedStep(before: Repos, from: Path, to: Path, repo: Repo, who: Identity)
    requires from in before && to !in before && Carries(before[from].description, who)
    requires Carries(repo.description, who) && OnePhrase(repo.description)
    ensures OwnStep(before, (before - {from})[to := repo], who)
  {
    hide Carries, OnePhrase;
  }

  // ---------------------------------------------------------------- ensuring a repository

  /** What is asked for: a name, and for starred repositories a second one. */
  datatype Request = Request(namespace: string, name: string, fallback: Option<string>, who: Identity, fullName: string, source: string) {
    function Wanted(): Path {
      Path(namespace, name)
    }

    function Description(): string {
      ManagedDescription(source, fullName, who)
    }

    /** The second name, if it is one. */
    function Second(): Option<Path> {
      if fallback.Some? && fallback.value != name then Some(Path(namespace, fallback.value)) else None
    }

    ghost predicate Clean() {
      Proper(who) && NoPhrase(source) && NoPhrase(fullName)
    }
  }

  /** Refused: what is in the way carries somebody else's marker, or none. */
  predicate Refused(repos: Repos, q: Request) {
    if q.Wanted() in repos then
      && !Carries(repos[q.Wanted()].description, q.who)
      && (q.Second().None? || (q.Second().value in repos && !Carries(repos[q.Second().value].description, q.who)))
    else
      q.Second().Some? && q.Second().value in repos && !Carries(repos[q.Second().value].description, q.who)
  }

  /** Where the request leads when no call fails. */
  function Place(repos: Repos, q: Request): Path {
    if q.Wanted() in repos && !Carries(repos[q.Wanted()].description, q.who) && q.Second().Some? then q.Second().value
    else q.Wanted()
  }

  /** What an answered request leaves: the identity's repository, described anew where it was or
      moved from the second name to the wanted one, or else a new one. */
  ghost predicate Leaves(before: Repos, after: Repos, q: Request) {
    var path := Place(before, q);
    if path in before then after == before[path := before[path].(description := q.Description())]
    else if q.Second().Some? && q.Second().value in before && q.Second().value != path then
      after == (before - {q.Second().value})[path := before[q.Second().value].(description := q.Description())]
    else exists id :: after == before[path := Repo(id, q.Description())]
  }

  /** The outcome of a request. */
  ghost predicate Ensured(before: Repos, after: Repos, q: Request, r: Reply<Path>) {
    && OwnStep(before, after, q.who)
    && (Refused(before, q) ==> !r.Answer? && after == before)
    && (r.Answer? ==> r.value == Place(before, q) && Leaves(before, after, q) && r.value in after
                      && Carries(after[r.value].description, q.who)
                      && Describes(q.source, q.fullName, q.who, after[r.value].description))
  }

  method UpdateDescription(server: Server, path: Path, existing: Repo, description: string, ghost who: Identity) returns (r: Reply<()>)
    requires path in server.repos && server.repos[path] == existing && Carries(existing.description, who)
    requires Carries(description, who) && OnePhrase(description)
    modifies server`repos, server`faults
    ensures OwnStep(old(server.repos), server.repos, who)
    ensures server.faults >= old(server.faults) && (server.faults == old(server.faults) ==> r.Answer?)
    ensures r.Answer? ==> server.repos == old(server.repos)[path := existing.(description := description)]
  {
    hide *;
    NoStep(server.repos, who);
    if existing.description == description {
      return Answer(());
    }
    DescribedStep(server.repos, path, description, who);
    var updated := server.SetDescription(path, description);
    r := match updated case Answer(_) => Answer(()) case Error => Error case Crash => Crash;
  }

  /** Uses the repository at `path` if it is the identity's, or creates it there. */
  method EnsureAtName(server: Server, path: Path, q: Request) returns (r: Reply<Path>)
    requires q.Clean()
    modifies server
    ensures OwnStep(old(server.repos), server.repos, q.who)
    ensures server.faults >= old(server.faults)
    ensures server.faults == old(server.faults) && (path in old(server.repos) ==> Carries(old(server.repos)[path].description, q.who)) ==> r.Answer?
    ensures path in old(server.repos) && !Carries(old(server.repos)[path].description, q.who) ==> !r.Answer? && server.repos == old(server.repos)
    ensures r.Answer? ==> r.value == path
    ensures r.Answer? && path in old(server.repos) ==>
              server.repos == old(server.repos)[path := old(server.repos)[path].(description := q.Description())]
    ensures r.Answer? && path !in old(server.repos) ==> exists id :: server.repos == old(server.repos)[path := Repo(id, q.Description())]
  {
    hide *;
    CleanDescription(q);
    NoStep(server.repos, q.who);
    var existing := server.Get(path);
    if !existing.Answer? {
      return if existing.Error? then Error else Crash;
    }
    if existing.value.Some? {
      if !Carries(existing.value.value.description, q.who) {
        return Error;
      }
      var updated := UpdateDescription(server, path, existing.value.value, q.Description(), q.who);
      return match updated case Answer(_) => Answer(path) case Error => Error case Crash => Crash;
    }
    r := CreateRepository(server, path, q);
  }

  method CreateRepository(server: Server, path: Path, q: Request) returns (r: Reply<Path>)
    requires q.Clean() && path !in server.repos
    modifies server
    ensures server.faults >= old(server.faults) && (server.faults == old(server.faults) ==> r.Answer?)
    ensures OwnStep(old(server.repos), server.repos, q.who)
    ensures r.Answer? ==> r.value == path && server.repos == old(server.repos)[path := Repo(old(server.nextId), q.Description())]
  {
    hide *;
    CleanDescription(q);
    NoStep(server.repos, q.who);
    CreatedStep(server.repos, path, Repo(server.nextId, q.Description()), q.who);
    var created := server.Create(path, q.Description());
    r := match created case Answer(_) => Answer(path) case Error => Error case Crash => Crash;
  }

  lemma CleanDescription(q: Request)
    requires q.Clean()
    ensures Carries(q.Description(), q.who) && OnePhrase(q.Description())
  {
    hide ManagedDescription, Carries, OnePhrase, NoPhrase;
    DescriptionOwned(q.source, q.fullName, q.who);
  }

  lemma EnsuredIs(before: Repos, q: Request)
    ensures Refused(before, q) <==>
            if q.Wanted() in before then
              !Carries(before[q.Wanted()].description, q.who)
              && (q.Second().None? || (q.Second().value in before && !Carries(before[q.Second().value].description, q.who)))
            else
              q.Second().Some? && q.Second().value in before && !Carries(before[q.Second().value].description, q.who)
    ensures Place(before, q) ==
            if q.Wanted() in before && !Carries(before[q.Wanted()].description, q.who) && q.Second().Some? then q.Second().value
            else q.Wanted()
    ensures q.Second().Some? ==> q.Second().value != q.Wanted()
  {
  }

  lemma EnsuredWhen(before: Repos, after: Repos, q: Request, r: Reply<Path>)
    requires OwnStep(before, after, q.who) && (Refused(before, q) ==> !r.Answer? && after == before)
    requires r.Answer? ==> r.value == Place(before, q) && Leaves(before, after, q)
    requires Carries(q.Description(), q.who)
    ensures Ensured(before, after, q, r)
  {
    hide Carries, OwnStep, ManagedDescription, Refused, Place, Describes;
    DescriptionDescribes(q.source, q.fullName, q.who);
  }

  lemma LeavesIs(before: Repos, after: Repos, q: Request)
    ensures var path := Place(before, q);
            Leaves(before, after, q) <==>
            if path in before then after == before[path := before[path].(description := q.Description())]
            else if q.Second().Some? && q.Second().value in before && q.Second().value != path then
              after == (before - {q.Second().value})[path := before[q.Second().value].(description := q.Description())]
            else exists id :: after == before[path := Repo(id, q.Description())]
  {
    hide ManagedDescription, Place;
  }

  /** The wanted name is in use: by the identity itself, or the second name has to do. */
  method EnsureExisting(server: Server, q: Request, existing: Repo) returns (r: Reply<Path>)
    requires q.Clean() && q.Wanted() in server.repos && server.repos[q.Wanted()] == existing
    modifies server
    ensures Ensured(old(server.repos), server.repos, q, r)
    ensures server.faults >= old(server.faults)
    ensures server.faults == old(server.faults) ==> (r.Answer? <==> !Refused(old(server.repos), q))
  {
    hide *;
    CleanDescription(q);
    EnsuredIs(server.repos, q);
    NoStep(server.repos, q.who);
    ghost var before := server.repos;
    if Carries(existing.description, q.who) {
      var updated := UpdateDescription(server, q.Wanted(), existing, q.Description(), q.who);
      r := match updated case Answer(_) => Answer(q.Wanted()) case Error => Error case Crash => Crash;
    } else if q.Second().None? {
      r := Error;
    } else {
      r := EnsureAtName(server, q.Second().value, q);
    }
    LeavesIs(before, server.repos, q);
    EnsuredWhen(before, server.repos, q, r);
  }

  /** The wanted name is free: what the identity has under the second name is moved there. */
  method EnsureAbsent(server: Server, q: Request) returns (r: Reply<Path>)
    requires q.Clean() && q.Wanted() !in server.repos
    modifies server
    ensures Ensured(old(server.repos), server.repos, q, r)
    ensures server.faults >= old(server.faults)
    ensures server.faults == old(server.faults) ==> (r.Answer? <==> !Refused(old(server.repos), q))
  {
    hide *;
    CleanDescription(q);
    EnsuredIs(server.repos, q);
    NoStep(server.repos, q.who);
    ghost var before := server.repos;
    if q.Second().Some? {
      var second := q.Second().value;
      var found := server.Get(second);
      if !found.Answer? {
        r := if found.Error? then Error else Crash;
        LeavesIs(before, server.repos, q);
        EnsuredWhen(before, server.repos, q, r);
        return;
      }
      if found.value.Some? {
        if !Carries(found.value.value.description, q.who) {
          r := Error;
        } else {
          RenamedStep(server.repos, second, q.Wanted(), server.repos[second].(description := q.Description()), q.who);
          var renamed := server.Rename(second, q.Wanted(), q.Description());
          r := match renamed case Answer(_) => Answer(q.Wanted()) case Error => Error case Crash => Crash;
        }
        LeavesIs(before, server.repos, q);
        EnsuredWhen(before, server.repos, q, r);
        return;
      }
    }
    r := CreateRepository(server, q.Wanted(), q);
    LeavesIs(before, server.repos, q);
    EnsuredWhen(before, server.repos, q, r);
  }

  /** Finds the identity's repository under one of its names, or makes it. */
  method EnsureRepository(server: Server, q: Request) returns (r: Reply<Path>)
    requires q.Clean()
    modifies server
    ensures Ensured(old(server.repos), server.repos, q, r)
    ensures server.faults >= old(server.faults)
    ensures server.faults == old(server.faults) ==> (r.Answer? <==> !Refused(old(server.repos), q))
  {
    hide *;
    CleanDescription(q);
    NoStep(server.repos, q.who);
    ghost var before := server.repos;
    var existing := server.Get(q.Wanted());
    if !existing.Answer? {
      r := if existing.Error? then Error else Crash;
      LeavesIs(before, server.repos, q);
      EnsuredWhen(before, server.repos, q, r);
      return;
    }
    if existing.value.Some? {
      r := EnsureExisting(server, q, existing.value.value);
    } else {
      r := EnsureAbsent(server, q);
    }
  }

  // ---------------------------------------------------------------- any sequence of requests

  /** States of the server with a request by one identity between each and the next. */
  ghost predicate History(states: seq<Repos>, actors: seq<Identity>) {
    && |states| == |actors| + 1
    && (forall i | 0 <= i < |actors| :: Proper(actors[i]) && OwnStep(states[i], states[i + 1], actors[i]))
  }

  /** What an identity owns stays as it is until the identity's own next request, whatever else
      is on the server. */
  lemma {:induction false} OwnedUntilOwnStep(states: seq<Repos>, actors: seq<Identity>, i: nat, j: nat, p: Path, owner: Identity)
    requires History(states, actors) && i <= j < |states| && Proper(owner)
    requires p in states[i] && Carries(states[i][p].description, owner) && OnePhrase(states[i][p].description)
    requires forall k | i <= k < j :: actors[k] != owner
    ensures p in states[j] && states[j][p] == states[i][p]
  {
    hide Carries, OnePhrase, OwnStep;
    if i < j {
      OwnedUntilOwnStep(states, actors, i, j - 1, p, owner);
      assert OwnStep(states[j - 1], states[j - 1 + 1], actors[j - 1]) && Proper(actors[j - 1]);
      OthersLeaveIt(states[j - 1], states[j], p, owner, actors[j - 1]);
    }
  }

  lemma OthersLeaveIt(before: Repos, after: Repos, p: Path, owner: Identity, other: Identity)
    requires OwnStep(before, after, other) && Proper(owner) && Proper(other) && owner != other
    requires p in before && Carries(before[p].description, owner) && OnePhrase(before[p].description)
    ensures p in after && after[p] == before[p] && !Carries(before[p].description, other)
  {
    hide Carries, OnePhrase;
    if Carries(before[p].description, other) {
      OneCarrier(before[p].description, owner, other);
    }
  }

  /** Requests with their answers, and the server's state between each and the next. */
  ghost predicate Answered(states: seq<Repos>, requests: seq<Request>, answers: seq<Reply<Path>>) {
    && |states| == |requests| + 1 && |answers| == |requests|
    && forall i | 0 <= i < |requests| :: requests[i].Clean() && Ensured(states[i], states[i + 1], requests[i], answers[i])
  }

  function Actors(requests: seq<Request>): (r: seq<Identity>)
    ensures |r| == |requests| && forall i | 0 <= i < |r| :: r[i] == requests[i].who
  {
    seq(|requests|, i requires 0 <= i < |requests| => requests[i].who)
  }

  lemma AnsweredHistory(states: seq<Repos>, requests: seq<Request>, answers: seq<Reply<Path>>)
    requires Answered(states, requests, answers)
    ensures History(states, Actors(requests))
  {
    hide OwnStep, Carries, OnePhrase, ManagedDescription, Refused, Place, NoPhrase, Proper, Describes, Leaves;
    forall i | 0 <= i < |requests|
      ensures Proper(requests[i].who) && OwnStep(states[i], states[i + 1], requests[i].who)
    {
      assert Ensured(states[i], states[i + 1], requests[i], answers[i]) && requests[i].Clean();
    }
  }

  /** An answered request leaves its path with the caller's marker and no other. */
  lemma AnswerOwns(before: Repos, after: Repos, q: Request, p: Path)
    requires q.Clean() && Ensured(before, after, q, Answer(p))
    ensures p in after && Carries(after[p].description, q.who) && OnePhrase(after[p].description) && Proper(q.who)
  {
    CleanDescription(q);
    hide Carries, OnePhrase, ManagedDescription, Refused, Place, NoPhrase, OwnStep, Proper, Describes;
  }

  /** EXCLUSIVE. Once a request of one identity has been answered with a path, no other identity's
      request is answered with that path before the first one asks again, whatever the server held
      to begin with. */
  lemma NeverTakenOver(states: seq<Repos>, requests: seq<Request>, answers: seq<Reply<Path>>, i: nat, j: nat, p: Path)
    requires Answered(states, requests, answers) && i < j < |requests|
    requires answers[i] == Answer(p) && answers[j] == Answer(p) && requests[i].who != requests[j].who
    ensures exists k :: i < k < j && requests[k].who == requests[i].who
  {
    AnsweredHistory(states, requests, answers);
    assert requests[i].Clean() && Ensured(states[i], states[i + 1], requests[i], answers[i]);
    assert requests[j].Clean() && Ensured(states[j], states[j + 1], requests[j], answers[j]);
    AnswerOwns(states[i], states[i + 1], requests[i], p);
    AnswerOwns(states[j], states[j + 1], requests[j], p);
    var owner, other := requests[i].who, requests[j].who;
    hide Answered, Ensured, Carries, OnePhrase, History, Proper;
    if forall k | i < k < j :: requests[k].who != owner {
      OwnedUntilOwnStep(states, Actors(requests), i + 1, j, p, owner);
      StepOfRequest(states, requests, answers, j);
      OthersLeaveIt(states[j], states[j + 1], p, owner, other);
    }
  }

  lemma StepOfRequest(states: seq<Repos>, requests: seq<Request>, answers: seq<Reply<Path>>, j: nat)
    requires Answered(states, requests, answers) && j < |requests|
    ensures OwnStep(states[j], states[j + 1], requests[j].who)
  {
    assert Ensured(states[j], states[j + 1], requests[j], answers[j]);
    hide OwnStep;
  }

  /** What one identity owns alone carries another's marker later only after a request of the first. */
  lemma PathChangesHands(states: seq<Repos>, actors: seq<Identity>, i: nat, j: nat, p: Path, owner: Identity, other: Identity)
    requires History(states, actors) && i <= j < |states| && Proper(owner) && Proper(other) && owner != other
    requires p in states[i] && Carries(states[i][p].description, owner) && OnePhrase(states[i][p].description)
    requires p in states[j] && Carries(states[j][p].description, other)
    ensures exists k :: i <= k < j && actors[k] == owner
  {
    hide Carries, OnePhrase, OwnStep;
    if forall k | i <= k < j :: actors[k] != owner {
      OwnedUntilOwnStep(states, actors, i, j, p, owner);
      OneCarrier(states[i][p].description, owner, other);
    }
  }

  /** A repository nobody's marker is on keeps its name and description for ever. */
  lemma {:induction false} UnmarkedStays(states: seq<Repos>, actors: seq<Identity>, i: nat, j: nat, p: Path)
    requires History(states, actors) && i <= j < |states|
    requires p in states[i] && NoPhrase(states[i][p].description)
    ensures p in states[j] && states[j][p] == states[i][p]
  {
    hide Carries, OnePhrase, NoPhrase;
    if i < j {
      UnmarkedStays(states, actors, i, j - 1, p);
      assert OwnStep(states[j - 1], states[j - 1 + 1], actors[j - 1]);
      UnmarkedCarriesNone(states[j - 1][p].description, actors[j - 1]);
    }
  }

  lemma UnmarkedCarriesNone(s: string, who: Identity)
    requires NoPhrase(s)
    ensures !Carries(s, who)
  {
    if Carries(s, who) {
      var i := PhraseAt(s, who);
    }
  }
}
