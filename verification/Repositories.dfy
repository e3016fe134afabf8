/** The repositories of git/repository.go as an object: which of them are cloned, and when. */
module Repositories {
  /** What CloneMaster answers: where the clone is, or an error. */
  datatype Cloning = Cloned(path: string) | CloneFailed

  /** A list of urls with what CloneMaster would answer at each place in it. */
  datatype Request = Request(urls: seq<string>, answers: seq<Cloning>) {
    predicate Valid() { |answers| == |urls| }
  }

  /** The urls at the first n places. */
  function Before(urls: seq<string>, n: nat): set<string>
    requires n <= |urls|
  {
    if n == 0 then {} else Before(urls, n - 1) + {urls[n - 1]}
  }

  lemma {:induction false} BeforeAre(urls: seq<string>, n: nat, u: string)
    requires n <= |urls|
    ensures u in Before(urls, n) <==> exists i :: 0 <= i < n && urls[i] == u
  {
    if n > 0 {
      BeforeAre(urls, n - 1, u);
    }
  }

  /** The first mention of a url that has no repository yet. */
  predicate NeedsClone(q: Request, known: set<string>, i: nat)
    requires i < |q.urls|
  {
    q.urls[i] !in known && q.urls[i] !in Before(q.urls, i)
  }

  predicate Fails(q: Request, known: set<string>, i: nat)
    requires q.Valid() && i < |q.urls|
  {
    NeedsClone(q, known, i) && q.answers[i].CloneFailed?
  }

  /** The clone made for u, at its first mention among the first n, is at this path. */
  predicate IsClonedAt(q: Request, n: nat, u: string, path: string)
    requires q.Valid() && n <= |q.urls|
  {
    exists i :: 0 <= i < n && q.urls[i] == u && q.answers[i] == Cloned(path) && forall k :: 0 <= k < i ==> q.urls[k] != u
  }

  lemma ClonedEarlier(q: Request, n: nat, u: string, path: string)
    requires q.Valid() && n < |q.urls| && IsClonedAt(q, n, u, path)
    ensures IsClonedAt(q, n + 1, u, path)
  {
  }

  lemma ClonedNow(q: Request, n: nat, path: string)
    requires q.Valid() && n < |q.urls| && q.answers[n] == Cloned(path) && q.urls[n] !in Before(q.urls, n)
    ensures IsClonedAt(q, n + 1, q.urls[n], path)
  {
    BeforeAre(q.urls, n, q.urls[n]);
  }

  /** The places below n at which a clone is made, in order. */
  function Clones(q: Request, known: set<string>, n: nat): seq<nat>
    requires n <= |q.urls|
  {
    if n == 0 then [] else Clones(q, known, n - 1) + (if NeedsClone(q, known, n - 1) then [n - 1] else [])
  }

  lemma {:induction false} ClonesAre(q: Request, known: set<string>, n: nat)
    requires n <= |q.urls|
    ensures forall k :: 0 <= k < |Clones(q, known, n)| ==> Clones(q, known, n)[k] < n && NeedsClone(q, known, Clones(q, known, n)[k])
    ensures forall k, l :: 0 <= k < l < |Clones(q, known, n)| ==> Clones(q, known, n)[k] < Clones(q, known, n)[l]
    ensures forall i :: 0 <= i < n && NeedsClone(q, known, i) ==> i in Clones(q, known, n)
  {
    if n > 0 {
      ClonesAre(q, known, n - 1);
    }
  }

  /** A clone is made exactly for the first mention of a url that was not known. */
  lemma CloneMadeExactlyWhen(q: Request, known: set<string>, n: nat, i: nat)
    requires n <= |q.urls|
    ensures i in Clones(q, known, n) <==> i < n && q.urls[i] !in known && forall k :: 0 <= k < i ==> q.urls[k] != q.urls[i]
  {
    ClonesAre(q, known, n);
    if i < n {
      BeforeAre(q.urls, i, q.urls[i]);
    }
  }

  /** No url is cloned twice, and none that already had a repository. */
  lemma ClonedOnce(q: Request, known: set<string>, n: nat, k: nat, l: nat)
    requires n <= |q.urls| && k < l < |Clones(q, known, n)|
    ensures Clones(q, known, n)[k] < |q.urls| && Clones(q, known, n)[l] < |q.urls|
    ensures q.urls[Clones(q, known, n)[k]] != q.urls[Clones(q, known, n)[l]]
    ensures q.urls[Clones(q, known, n)[k]] !in known
  {
    ClonesAre(q, known, n);
    var a, b := Clones(q, known, n)[k], Clones(q, known, n)[l];
    BeforeAre(q.urls, b, q.urls[a]);
  }

  class Repository {
    const path: string
    const url: string

    constructor (path: string, url: string)
      ensures this.path == path && this.url == url
    {
      this.path := path;
      this.url := url;
    }
  }

  /**
   There is an entry for every known url and every one of the first n listed; each that was not known is the
   clone made at the first mention of its url.
   */
  ghost predicate HasFirst(q: Request, n: nat, known: set<string>, repos: map<string, Repository>)
    requires q.Valid() && n <= |q.urls|
  {
    && (forall u :: u in repos <==> u in known || u in Before(q.urls, n))
    && (forall u :: u in repos && u !in known ==> repos[u].url == u && IsClonedAt(q, n, u, repos[u].path))
  }

  lemma EntriesAre(q: Request, i: nat, known: set<string>, before: map<string, Repository>, after: map<string, Repository>, ok: bool)
    requires q.Valid() && i < |q.urls| && HasFirst(q, i, known, before)
    requires forall u :: u in after <==> u in before || (ok && u == q.urls[i])
    requires forall u :: u in before ==> after[u] == before[u]
    requires ok && q.urls[i] !in before ==> after[q.urls[i]].url == q.urls[i] && q.answers[i] == Cloned(after[q.urls[i]].path)
    ensures HasFirst(q, if ok then i + 1 else i, known, after)
  {
    forall u | u in after && u !in known
      ensures after[u].url == u && IsClonedAt(q, if ok then i + 1 else i, u, after[u].path)
    {
      if u !in before {
        ClonedNow(q, i, after[u].path);
      } else if ok {
        ClonedEarlier(q, i, u, before[u].path);
      }
    }
  }

  lemma AllListed(q: Request, known: set<string>, repos: map<string, Repository>)
    requires q.Valid() && HasFirst(q, |q.urls|, known, repos)
    ensures forall u :: u in q.urls ==> u in repos
  {
    forall u | u in q.urls
      ensures u in repos
    {
      BeforeAre(q.urls, |q.urls|, u);
    }
  }

  class Repositories {
    var repos: map<string, Repository>

    constructor ()
      ensures repos == map[]
    {
      repos := map[];
    }

    function NotEmpty(): (r: bool)
      reads this
      ensures r <==> exists u :: u in repos
    {
      assert |repos| == 0 <==> repos == map[];
      |repos| != 0
    }

    method Download(url: string, answer: Cloning) returns (ok: bool, cloned: bool)
      modifies this
      ensures cloned <==> url !in old(repos)
      ensures ok <==> url in old(repos) || answer.Cloned?
      ensures forall u :: u in repos <==> u in old(repos) || (ok && u == url)
      ensures forall u :: u in old(repos) ==> repos[u] == old(repos[u])
      ensures cloned && ok ==> fresh(repos[url]) && repos[url].path == answer.path && repos[url].url == url
    {
      if url !in repos {
        if answer.CloneFailed? {
          return false, true;
        }
        var repository := new Repository(answer.path, url);
        repos := repos[url := repository];
        return true, true;
      }
      return true, false;
    }

    /**
     Goes through the list until a clone fails, which happens at at. On success every listed url has a
     repository; either way the ones there before are the same objects, and each url was cloned at most once
     (ClonedOnce).
     */
    method DownloadAll(q: Request) returns (ok: bool, clones: seq<nat>, ghost at: nat)
      requires q.Valid()
      modifies this
      ensures at <= |q.urls| && (ok <==> at == |q.urls|) && (!ok ==> Fails(q, old(repos.Keys), at))
      ensures forall i :: 0 <= i < at ==> !Fails(q, old(repos.Keys), i)
      ensures ok <==> forall i :: 0 <= i < |q.urls| ==> !Fails(q, old(repos.Keys), i)
      ensures clones == Clones(q, old(repos.Keys), if ok then at else at + 1)
      ensures HasFirst(q, at, old(repos.Keys), repos)
      ensures ok ==> forall u :: u in q.urls ==> u in repos
      ensures forall u :: u in old(repos) ==> repos[u] == old(repos[u])
    {
      ghost var known := repos.Keys;
      clones := [];
      for i := 0 to |q.urls|
        invariant forall k :: 0 <= k < i ==> !Fails(q, known, k)
        invariant clones == Clones(q, known, i)
        invariant HasFirst(q, i, known, repos)
        invariant forall u :: u in known ==> u in repos && repos[u] == old(repos[u])
      {
        var downloaded, cloned := DownloadNext(q, i, known);
        if cloned {
          clones := clones + [i];
        }
        if !downloaded {
          return false, clones, i;
        }
      }
      AllListed(q, known, repos);
      return true, clones, |q.urls|;
    }

    /** One turn of that loop. */
    method DownloadNext(q: Request, i: nat, ghost known: set<string>) returns (ok: bool, cloned: bool)
      requires q.Valid() && i < |q.urls| && HasFirst(q, i, known, repos)
      modifies this
      ensures cloned <==> NeedsClone(q, known, i)
      ensures ok <==> !Fails(q, known, i)
      ensures HasFirst(q, if ok then i + 1 else i, known, repos)
      ensures forall u :: u in old(repos) ==> u in repos && repos[u] == old(repos[u])
    {
      ghost var before := repos;
      ok, cloned := Download(q.urls[i], q.answers[i]);
      EntriesAre(q, i, known, before, repos, ok);
    }
  }
}
