/** The in-memory repository registry: a list of records that the add
    handler appends to, the delete handler filters, the list handler
    returns with tokens hidden and the status handler searches. */
module Registry {
  import opened Js
  import Seqs

  /** One tracked repository. `platform` is whatever the client sent:
      nothing checks that it is "github" or "gitlab". */
  datatype RepoConfig = RepoConfig(id: string, platform: string, owner: string, name: string, token: string)

  /** The placeholder every read response shows instead of a token. */
  const Mask: string := "***"

  /** The id of a repository: `${owner}/${name}`. */
  function MakeId(owner: string, name: string): (id: string)
    ensures |id| == |owner| + 1 + |name|
    ensures id[..|owner|] == owner && id[|owner|] == '/' && id[|owner| + 1..] == name
  {
    owner + "/" + name
  }

  /** A record as every read response shows it: `{ ...r, token: '***' }`. */
  function Redact(r: RepoConfig): (v: RepoConfig)
    ensures v.token == Mask
    ensures v.id == r.id && v.platform == r.platform && v.owner == r.owner && v.name == r.name
  {
    r.(token := Mask)
  }

  /** `repos.map(r => ({ ...r, token: '***' }))` */
  function RedactAll(s: seq<RepoConfig>): (v: seq<RepoConfig>)
    ensures |v| == |s|
    ensures forall i :: 0 <= i < |s| ==> v[i] == Redact(s[i])
  {
    if s == [] then [] else [Redact(s[0])] + RedactAll(s[1..])
  }

  /** `repos.filter(r => r.id !== id)`: the records whose id differs. */
  function Without(s: seq<RepoConfig>, id: string): (t: seq<RepoConfig>)
    ensures |t| <= |s|
    ensures forall r :: r in t <==> r in s && r.id != id
  {
    if s == [] then []
    else if s[0].id == id then Without(s[1..], id)
    else [s[0]] + Without(s[1..], id)
  }

  /** `repos.findIndex(r => r.id === id)`, None standing for -1: the
      position of the first record with that id. */
  function FirstIndex(s: seq<RepoConfig>, id: string): (k: Option<nat>)
    ensures k.None? <==> forall i :: 0 <= i < |s| ==> s[i].id != id
    ensures k.Some? ==> k.value < |s| && s[k.value].id == id
    ensures k.Some? ==> forall j :: 0 <= j < k.value ==> s[j].id != id
  {
    if s == [] then None
    else if s[0].id == id then Some(0)
    else match FirstIndex(s[1..], id)
      case None => None
      case Some(j) => Some(j + 1)
  }

  /** `repos.find(r => r.id === id)`, None standing for `undefined`. */
  function FindFirst(s: seq<RepoConfig>, id: string): (found: Option<RepoConfig>)
    ensures found.None? <==> forall i :: 0 <= i < |s| ==> s[i].id != id
    ensures found.Some? ==> found.value in s && found.value.id == id
    ensures found.Some? ==> exists k :: (0 <= k < |s| && s[k] == found.value &&
      forall j :: 0 <= j < k ==> s[j].id != id)
  {
    match FirstIndex(s, id)
    case None => None
    case Some(k) => Some(s[k])
  }

  /** The predicate the delete filter drops records by. */
  function IdIs(id: string): RepoConfig -> bool {
    (r: RepoConfig) => r.id == id
  }

  /** Removal keeps the surviving records in their original order: filtering
      a concatenation filters each part. */
  lemma {:induction false} WithoutAppend(a: seq<RepoConfig>, b: seq<RepoConfig>, id: string)
    ensures Without(a + b, id) == Without(a, id) + Without(b, id)
  {
    if a == [] {
      assert a + b == b;
    } else {
      assert (a + b)[1..] == a[1..] + b;
      WithoutAppend(a[1..], b, id);
    }
  }

  /** Removing an id that no record carries leaves the list unchanged. */
  lemma {:induction false} WithoutAbsent(s: seq<RepoConfig>, id: string)
    requires forall i :: 0 <= i < |s| ==> s[i].id != id
    ensures Without(s, id) == s
  {
    if s != [] {
      WithoutAbsent(s[1..], id);
      assert [s[0]] + s[1..] == s;
    }
  }

  /** Exactly the records carrying the id are dropped, however many there are. */
  lemma {:induction false} WithoutLength(s: seq<RepoConfig>, id: string)
    ensures |Without(s, id)| == |s| - Seqs.Count(s, IdIs(id))
  {
    if s != [] {
      WithoutLength(s[1..], id);
    }
  }

  /** Removing twice is removing once. */
  lemma WithoutIdempotent(s: seq<RepoConfig>, id: string)
    ensures Without(Without(s, id), id) == Without(s, id)
  {
    var t := Without(s, id);
    forall i | 0 <= i < |t| ensures t[i].id != id {
      assert t[i] in t;
    }
    WithoutAbsent(t, id);
  }

  /** Appending never changes which record a lookup finds first when one
      already matched: a second record with the same id is shadowed. */
  lemma {:induction false} FirstIndexAppend(s: seq<RepoConfig>, x: RepoConfig, id: string)
    requires FirstIndex(s, id).Some?
    ensures FirstIndex(s + [x], id) == FirstIndex(s, id)
  {
    assert (s + [x])[0] == s[0];
    if s[0].id != id {
      assert (s + [x])[1..] == s[1..] + [x];
      FirstIndexAppend(s[1..], x, id);
    }
  }

  /** The duplicate-id case: after adding a record whose id is already
      present, lookup still returns the earlier record. */
  lemma AddShadowed(s: seq<RepoConfig>, x: RepoConfig)
    requires FindFirst(s, x.id).Some?
    ensures FindFirst(s + [x], x.id) == FindFirst(s, x.id)
  {
    FirstIndexAppend(s, x, x.id);
    var k := FirstIndex(s, x.id).value;
    assert (s + [x])[k] == s[k];
  }

  /** Adding a record with a fresh id makes it the one a lookup finds. */
  lemma AddThenFind(s: seq<RepoConfig>, x: RepoConfig)
    requires FindFirst(s, x.id).None?
    ensures FindFirst(s + [x], x.id) == Some(x)
  {
    var t := s + [x];
    assert t[|s|] == x;
    assert forall j :: 0 <= j < |s| ==> t[j] == s[j];
  }

  /** After removal no lookup of that id succeeds. */
  lemma RemoveThenFind(s: seq<RepoConfig>, id: string)
    ensures FindFirst(Without(s, id), id).None?
  {
    var t := Without(s, id);
    forall i | 0 <= i < |t| ensures t[i].id != id {
      assert t[i] in t;
    }
  }

  /** Adding a record and then removing its id removes every earlier record
      with that id too, and nothing else. */
  lemma AddThenRemove(s: seq<RepoConfig>, x: RepoConfig)
    ensures Without(s + [x], x.id) == Without(s, x.id)
  {
    WithoutAppend(s, [x], x.id);
    assert Without([x], x.id) == [];
  }

  /** Ids are unambiguous as long as owners contain no slash. */
  lemma MakeIdInjective(o1: string, n1: string, o2: string, n2: string)
    requires '/' !in o1 && '/' !in o2
    requires MakeId(o1, n1) == MakeId(o2, n2)
    ensures o1 == o2 && n1 == n2
  {
    assert |o1| == |o2| by {
      if |o1| != |o2| {
        assert false;
      }
    }
    assert o1 == MakeId(o1, n1)[..|o1|];
  }

  /** In a registry whose records were all built by the add handler and
      whose owners contain no slash, looking up `owner/name` succeeds exactly
      when such a record is stored, and finds a record of that owner and name. */
  lemma FoundByOwnerName(s: seq<RepoConfig>, owner: string, name: string)
    requires forall i :: 0 <= i < |s| ==> WellFormed(s[i]) && '/' !in s[i].owner
    requires '/' !in owner
    ensures FindFirst(s, MakeId(owner, name)).Some? <==>
      exists i :: 0 <= i < |s| && s[i].owner == owner && s[i].name == name
    ensures FindFirst(s, MakeId(owner, name)).Some? ==>
      FindFirst(s, MakeId(owner, name)).value.owner == owner &&
      FindFirst(s, MakeId(owner, name)).value.name == name
  {
    var id := MakeId(owner, name);
    var found := FindFirst(s, id);
    if found.Some? {
      var r := found.value;
      MakeIdInjective(r.owner, r.name, owner, name);
      var i :| 0 <= i < |s| && s[i] == r;
    }
    if exists i :: 0 <= i < |s| && s[i].owner == owner && s[i].name == name {
      var i :| 0 <= i < |s| && s[i].owner == owner && s[i].name == name;
      assert s[i].id == id;
    }
  }

  /** With a slash in the owner, two different repositories share an id. */
  lemma MakeIdCollides()
    ensures MakeId("a/b", "c") == MakeId("a", "b/c")
  {
  }

  /** A record the add handler could have built: its id is derived from
      its owner and name. */
  predicate WellFormed(r: RepoConfig) {
    r.id == MakeId(r.owner, r.name)
  }

  /** The registry, `let repos: RepoConfig[]`, as an object owning the list. */
  class Store {
    var repos: seq<RepoConfig>

    /** Every record was built by `Add`. */
    ghost predicate Valid()
      reads this
    {
      forall i :: 0 <= i < |repos| ==> WellFormed(repos[i])
    }

    /** The registry starts empty. */
    constructor ()
      ensures Valid() && repos == []
    {
      repos := [];
    }

    /** GET /api/repos: every record, in insertion order, token hidden. */
    method List() returns (view: seq<RepoConfig>)
      ensures |view| == |repos|
      ensures forall i :: 0 <= i < |repos| ==>
        view[i].id == repos[i].id && view[i].platform == repos[i].platform &&
        view[i].owner == repos[i].owner && view[i].name == repos[i].name
      ensures forall r :: r in view ==> r.token == Mask
    {
      view := RedactAll(repos);
    }

    /** POST /api/repos: append a new record with the derived id, without
        looking for an existing one, and answer with the record redacted. */
    method Add(platform: string, owner: string, name: string, token: string) returns (success: bool, created: RepoConfig)
      requires Valid()
      modifies this
      ensures Valid()
      ensures success
      ensures repos == old(repos) + [RepoConfig(MakeId(owner, name), platform, owner, name, token)]
      ensures created == Redact(repos[|repos| - 1]) && created.token == Mask
    {
      var repo := RepoConfig(MakeId(owner, name), platform, owner, name, token);
      repos := repos + [repo];
      success, created := true, Redact(repo);
    }

    /** DELETE /api/repos/:id: drop every record with that id; always
        reports success. */
    method Remove(id: string) returns (success: bool)
      requires Valid()
      modifies this
      ensures Valid()
      ensures success
      ensures repos == Without(old(repos), id)
    {
      repos := Without(repos, id);
      success := true;
    }

    /** The lookup that starts GET /api/repos/:id/status: the first
        record with the id, as `FindFirst` specifies it. */
    method Find(id: string) returns (found: Option<RepoConfig>)
      ensures found == FindFirst(repos, id)
    {
      var k := FirstIndex(repos, id);
      found := if k.Some? then Some(repos[k.value]) else None;
    }

    /** In a valid store whose owners contain no slash, looking up
        `owner/name` succeeds exactly when that repository is registered,
        and returns a record of that owner and name. */
    lemma FindByOwnerName(owner: string, name: string)
      requires Valid()
      requires forall i :: 0 <= i < |repos| ==> '/' !in repos[i].owner
      requires '/' !in owner
      ensures FindFirst(repos, MakeId(owner, name)).Some? <==>
        exists i :: 0 <= i < |repos| && repos[i].owner == owner && repos[i].name == name
      ensures FindFirst(repos, MakeId(owner, name)).Some? ==>
        FindFirst(repos, MakeId(owner, name)).value.owner == owner &&
        FindFirst(repos, MakeId(owner, name)).value.name == name
    {
      FoundByOwnerName(repos, owner, name);
    }
  }
}
