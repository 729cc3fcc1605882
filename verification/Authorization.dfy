/**
 * Authorization: resource names with wildcards, permissions, roles and groups, and the service that evaluates
 * them from caches keyed by "organization:project:name" strings.
 */
module Authorization {
  import opened Options

  datatype ResourceURN = ResourceURN(system: string, organization: string, project: string, resource: string)

  type Action = string

  const ADMIN: Action := "admin"

  datatype Permission = Permission(pattern: ResourceURN, actions: seq<Action>)

  datatype Role = Role(name: string, organization: string, project: string, permissions: seq<Permission>)

  datatype Group = Group(name: string, organization: string, project: string, roles: seq<string>)

  // ----- Resource names -----

  function Print(r: ResourceURN): string {
    r.system + ":" + r.organization + ":" + r.project + ":" + r.resource
  }

  /** strings.Split on a colon: always at least one part. */
  function Split(s: string): (parts: seq<string>)
    ensures parts != []
  {
    if s == "" then [""]
    else
      var rest := Split(s[1..]);
      if s[0] == ':' then [""] + rest else [[s[0]] + rest[0]] + rest[1..]
  }

  function Parse(urn: string): Option<ResourceURN> {
    var parts := Split(urn);
    if |parts| != 4 then None else Some(ResourceURN(parts[0], parts[1], parts[2], parts[3]))
  }

  function Join(parts: seq<string>): string
    requires parts != []
  {
    if |parts| == 1 then parts[0] else parts[0] + ":" + Join(parts[1..])
  }

  predicate ColonFree(s: string) {
    ':' !in s
  }

  lemma {:induction false} JoinSplit(s: string)
    ensures Join(Split(s)) == s
    ensures forall p <- Split(s) :: ColonFree(p)
  {
    if s != "" {
      JoinSplit(s[1..]);
      var rest := Split(s[1..]);
      if s[0] == ':' {
        assert ([""] + rest)[1..] == rest;
        assert s == ":" + s[1..];
      } else {
        var parts := [[s[0]] + rest[0]] + rest[1..];
        assert parts[1..] == rest[1..];
        assert s == [s[0]] + s[1..];
        assert ColonFree(rest[0]);
      }
    }
  }

  /** Splitting a colon-free text gives that text, and splits it off from what follows a colon. */
  lemma {:induction false} SplitFree(s: string, tail: string)
    requires ColonFree(s)
    ensures Split(s) == [s]
    ensures Split(s + ":" + tail) == [s] + Split(tail)
  {
    if s == "" {
      assert s + ":" + tail == ":" + tail;
      assert (":" + tail)[1..] == tail;
    } else {
      assert ColonFree(s[1..]);
      SplitFree(s[1..], tail);
      assert (s + ":" + tail)[1..] == s[1..] + ":" + tail;
      assert [s[0]] + s[1..] == s;
      assert ([s[1..]] + Split(tail))[1..] == Split(tail);
    }
  }

  /** Printing what was parsed gives the input back. */
  lemma ParsePrint(urn: string)
    requires Parse(urn).Some?
    ensures Print(Parse(urn).value) == urn
    ensures var r := Parse(urn).value;
            ColonFree(r.system) && ColonFree(r.organization) && ColonFree(r.project) && ColonFree(r.resource)
  {
    JoinSplit(urn);
    var p := Split(urn);
    assert Join(p[3..]) == p[3];
    assert p[2..][1..] == p[3..] && p[1..][1..] == p[2..];
    assert Join(p[2..]) == p[2] + ":" + p[3];
    assert Join(p[1..]) == p[1] + ":" + (p[2] + ":" + p[3]);
    assert Print(Parse(urn).value) == p[0] + ":" + (p[1] + ":" + (p[2] + ":" + p[3]));
  }

  /** Parsing what was printed gives the record back exactly when no component contains a colon. */
  lemma PrintParse(r: ResourceURN)
    ensures Parse(Print(r)) == Some(r) <==>
            ColonFree(r.system) && ColonFree(r.organization) && ColonFree(r.project) && ColonFree(r.resource)
  {
    if ColonFree(r.system) && ColonFree(r.organization) && ColonFree(r.project) && ColonFree(r.resource) {
      assert Print(r) == r.system + ":" + (r.organization + ":" + (r.project + ":" + r.resource));
      SplitFree(r.system, r.organization + ":" + (r.project + ":" + r.resource));
      assert r.organization + ":" + (r.project + ":" + r.resource) == r.organization + ":" + r.project + ":"
             + r.resource;
      SplitFree(r.organization, r.project + ":" + r.resource);
      SplitFree(r.project, r.resource);
      SplitFree(r.resource, "");
    } else if Parse(Print(r)) == Some(r) {
      ParsePrint(Print(r));
    }
  }

  lemma TwoParts(a: string, b: string)
    requires ColonFree(a)
    ensures Split(a + ":" + b) == [a] + Split(b)
  {
    SplitFree(a, b);
  }

  /** The four parts are read in the order system, organization, project, resource. */
  lemma ParseInOrder(system: string, organization: string, project: string, resource: string)
    requires ColonFree(system) && ColonFree(organization) && ColonFree(project) && ColonFree(resource)
    ensures Parse(system + ":" + organization + ":" + project + ":" + resource)
         == Some(ResourceURN(system, organization, project, resource))
  {
    var rest := project + ":" + resource;
    assert system + ":" + organization + ":" + project + ":" + resource == system + ":" + (organization + ":" + rest);
    TwoParts(system, organization + ":" + rest);
    TwoParts(organization, rest);
    TwoParts(project, resource);
    SplitFree(resource, "");
  }

  function Colons(s: string): nat {
    if s == "" then 0 else (if s[0] == ':' then 1 else 0) + Colons(s[1..])
  }

  lemma {:induction false} PartsAreColons(s: string)
    ensures |Split(s)| == Colons(s) + 1
  {
    if s != "" {
      PartsAreColons(s[1..]);
    }
  }

  /** A text is a URN exactly when it has three colons. */
  lemma ParsesIffThreeColons(urn: string)
    ensures Parse(urn).Some? <==> Colons(urn) == 3
  {
    PartsAreColons(urn);
  }

  // ----- Patterns and permissions -----

  predicate PartMatches(pattern: string, part: string) {
    pattern == "*" || pattern == part
  }

  predicate Matches(pattern: ResourceURN, resource: ResourceURN) {
    && PartMatches(pattern.system, resource.system)
    && PartMatches(pattern.organization, resource.organization)
    && PartMatches(pattern.project, resource.project)
    && PartMatches(pattern.resource, resource.resource)
  }

  /** The early exits of matchesResourcePattern. */
  method MatchesResourcePattern(pattern: ResourceURN, resource: ResourceURN) returns (matches: bool)
    ensures matches <==> Matches(pattern, resource)
  {
    if pattern.system != "*" && pattern.system != resource.system {
      return false;
    }
    if pattern.organization != "*" && pattern.organization != resource.organization {
      return false;
    }
    if pattern.project != "*" && pattern.project != resource.project {
      return false;
    }
    if pattern.resource != "*" && pattern.resource != resource.resource {
      return false;
    }
    return true;
  }

  ghost predicate Allows(p: Permission, action: Action) {
    ADMIN in p.actions || action in p.actions
  }

  method ContainsAction(actions: seq<Action>, target: Action) returns (found: bool)
    ensures found <==> target in actions
  {
    for i := 0 to |actions|
      invariant target !in actions[..i]
    {
      if actions[i] == target {
        return true;
      }
    }
    return false;
  }

  ghost predicate RoleAllows(role: Role, resource: ResourceURN, action: Action) {
    exists p <- role.permissions :: Matches(p.pattern, resource) && Allows(p, action)
  }

  method RoleAllowsAction(role: Role, resource: ResourceURN, action: Action) returns (allows: bool)
    ensures allows <==> RoleAllows(role, resource, action)
  {
    for i := 0 to |role.permissions|
      invariant forall j :: 0 <= j < i ==>
                  !(Matches(role.permissions[j].pattern, resource) && Allows(role.permissions[j], action))
    {
      var p := role.permissions[i];
      var matches := MatchesResourcePattern(p.pattern, resource);
      var admin := ContainsAction(p.actions, ADMIN);
      var listed := ContainsAction(p.actions, action);
      if matches && (admin || listed) {
        return true;
      }
    }
    return false;
  }

  /** A star in a component matches whatever the resource has there; without stars only the resource itself matches. */
  lemma WildcardMeaning(p: ResourceURN, r: ResourceURN)
    ensures Matches(ResourceURN("*", "*", "*", "*"), r)
    ensures Matches(p.(system := "*"), r) <==> Matches(p.(system := r.system), r)
    ensures Matches(p.(organization := "*"), r) <==> Matches(p.(organization := r.organization), r)
    ensures Matches(p.(project := "*"), r) <==> Matches(p.(project := r.project), r)
    ensures Matches(p.(resource := "*"), r) <==> Matches(p.(resource := r.resource), r)
    ensures p.system != "*" && p.organization != "*" && p.project != "*" && p.resource != "*" ==>
              (Matches(p, r) <==> p == r)
  {
  }

  /** Permission to administer is permission for every action; any other list permits just what it lists. */
  lemma AdminMeaning(p: Permission, action: Action)
    ensures "admin" in p.actions ==> Allows(p, action)
    ensures "admin" !in p.actions ==> (Allows(p, action) <==> action in p.actions)
  {
  }

  /** Matching is a preorder, so a pattern that matches another one is at least as general. */
  lemma MatchesIsPreorder(a: ResourceURN, b: ResourceURN, c: ResourceURN)
    ensures Matches(a, a)
    ensures Matches(a, b) && Matches(b, c) ==> Matches(a, c)
    ensures Matches(a, b) && Matches(b, a) ==> a == b
  {
  }

  // ----- The keys of the caches -----

  function Key(org: string, project: string, name: string): string {
    org + ":" + project + ":" + name
  }

  /** Keys are injective where organization and project are free of colons; the name may hold some. */
  lemma KeyInjective(o: string, p: string, n: string, o': string, p': string, n': string)
    requires ColonFree(o) && ColonFree(p) && ColonFree(o') && ColonFree(p')
    requires Key(o, p, n) == Key(o', p', n')
    ensures o == o' && p == p' && n == n'
  {
    assert Key(o, p, n) == o + ":" + (p + ":" + n);
    assert Key(o', p', n') == o' + ":" + (p' + ":" + n');
    SplitFree(o, p + ":" + n);
    SplitFree(o', p' + ":" + n');
    SplitFree(p, n);
    SplitFree(p', n');
    var parts := Split(Key(o, p, n));
    assert parts[0] == o == o' && parts[1..][0] == p == p';
    assert Key(o, p, n)[|o| + 1 + |p| + 1..] == n;
    assert Key(o', p', n')[|o'| + 1 + |p'| + 1..] == n';
  }

  /** With a colon in a project, two different roles share a key. */
  lemma KeysCollide(o: string, p: string, q: string, n: string)
    ensures Key(o, p + ":" + q, n) == Key(o, p, q + ":" + n)
    ensures (o, p + ":" + q, n) != (o, p, q + ":" + n)
  {
    assert Key(o, p + ":" + q, n) == Key(o, p, q + ":" + n);
    assert |p + ":" + q| > |p|;
  }

  lemma {:induction false} PartsAdd(s: string, t: string)
    ensures |Split(s + ":" + t)| == |Split(s)| + |Split(t)|
  {
    var u := s + ":" + t;
    if s == "" {
      assert u[1..] == t;
    } else {
      assert u[1..] == s[1..] + ":" + t;
      PartsAdd(s[1..], t);
    }
  }

  lemma OnePart(s: string)
    requires |Split(s)| == 1
    ensures ColonFree(s)
  {
    JoinSplit(s);
    assert Split(s) == [Split(s)[0]];
  }

  /** The first colon of a text splits it in two. */
  lemma AtColon(s: string) returns (a: string, b: string)
    requires !ColonFree(s)
    ensures s == a + ":" + b && |a| < |s| && |b| < |s|
  {
    var i :| 0 <= i < |s| && s[i] == ':';
    a, b := s[..i], s[i + 1..];
    assert s == s[..i] + [s[i]] + s[i + 1..];
  }

  ghost predicate UniqueKey(o: string, p: string, n: string) {
    forall o', p', n' :: Key(o', p', n') == Key(o, p, n) ==> o' == o && p' == p && n' == n
  }

  /** Some other organization, project and name have the same key exactly when one of the three contains a colon. */
  lemma KeyUniqueIffColonFree(o: string, p: string, n: string)
    ensures UniqueKey(o, p, n) <==> ColonFree(o) && ColonFree(p) && ColonFree(n)
  {
    if ColonFree(o) && ColonFree(p) && ColonFree(n) {
      forall o', p', n' | Key(o', p', n') == Key(o, p, n)
        ensures o' == o && p' == p && n' == n
      {
        KeyOfParts(o, p, n, o', p', n');
      }
    } else {
      var o', p', n' := Collision(o, p, n);
      assert Key(o', p', n') == Key(o, p, n);
    }
  }

  lemma KeyParts(o: string, p: string, n: string)
    ensures |Split(Key(o, p, n))| == |Split(o)| + |Split(p)| + |Split(n)|
  {
    PartsAdd(o + ":" + p, n);
    PartsAdd(o, p);
  }

  lemma KeyOfParts(o: string, p: string, n: string, o': string, p': string, n': string)
    requires ColonFree(o) && ColonFree(p) && ColonFree(n) && Key(o', p', n') == Key(o, p, n)
    ensures o' == o && p' == p && n' == n
  {
    KeyParts(o, p, n);
    KeyParts(o', p', n');
    SplitFree(o, "");
    SplitFree(p, "");
    SplitFree(n, "");
    OnePart(o');
    OnePart(p');
    KeyInjective(o, p, n, o', p', n');
  }

  lemma Collision(o: string, p: string, n: string) returns (o': string, p': string, n': string)
    requires !ColonFree(o) || !ColonFree(p) || !ColonFree(n)
    ensures Key(o', p', n') == Key(o, p, n) && (o', p', n') != (o, p, n)
  {
    if !ColonFree(o) {
      var a, b := AtColon(o);
      o', p', n' := a, b, p + ":" + n;
      assert a + ":" + b + ":" + (p + ":" + n) == a + ":" + b + ":" + p + ":" + n;
    } else if !ColonFree(p) {
      var a, b := AtColon(p);
      o', p', n' := o, a, b + ":" + n;
      assert o + ":" + a + ":" + (b + ":" + n) == o + ":" + (a + ":" + b) + ":" + n;
    } else {
      var a, b := AtColon(n);
      o', p', n' := o, p + ":" + a, b;
      assert o + ":" + (p + ":" + a) + ":" + b == o + ":" + p + ":" + (a + ":" + b);
      assert |p + ":" + a| > |p|;
    }
  }

  // ----- The service -----

  datatype Triple = Triple(org: string, project: string, name: string)

  /** A cache keyed by strings represents a map keyed by triples. */
  ghost predicate Represents<T(!new)>(cache: map<string, T>, m: map<Triple, T>) {
    && (forall t :: t in m ==> ColonFree(t.org) && ColonFree(t.project) && Key(t.org, t.project, t.name) in cache)
    && (forall t :: t in m ==> cache[Key(t.org, t.project, t.name)] == m[t])
    && (forall k :: k in cache ==> exists t :: t in m && Key(t.org, t.project, t.name) == k)
  }

  lemma LookupRefines<T(!new)>(cache: map<string, T>, m: map<Triple, T>, t: Triple)
    requires Represents(cache, m) && ColonFree(t.org) && ColonFree(t.project)
    ensures Key(t.org, t.project, t.name) in cache <==> t in m
    ensures t in m ==> cache[Key(t.org, t.project, t.name)] == m[t]
  {
    var k := Key(t.org, t.project, t.name);
    if k in cache {
      var t' :| t' in m && Key(t'.org, t'.project, t'.name) == k;
      KeyInjective(t.org, t.project, t.name, t'.org, t'.project, t'.name);
    }
  }

  lemma PutRefines<T(!new)>(cache: map<string, T>, m: map<Triple, T>, t: Triple, v: T)
    requires Represents(cache, m) && ColonFree(t.org) && ColonFree(t.project)
    ensures Represents(cache[Key(t.org, t.project, t.name) := v], m[t := v])
  {
    var k := Key(t.org, t.project, t.name);
    forall t' | t' in m && t' != t
      ensures Key(t'.org, t'.project, t'.name) != k
    {
      if Key(t'.org, t'.project, t'.name) == k {
        KeyInjective(t.org, t.project, t.name, t'.org, t'.project, t'.name);
      }
    }
    var cache' := cache[k := v];
    forall k' | k' in cache'
      ensures exists t' :: t' in m[t := v] && Key(t'.org, t'.project, t'.name) == k'
    {
      if k' == k {
        assert t in m[t := v];
      } else {
        var t' :| t' in m && Key(t'.org, t'.project, t'.name) == k';
        assert t' in m[t := v];
      }
    }
  }

  lemma RemoveRefines<T(!new)>(cache: map<string, T>, m: map<Triple, T>, t: Triple)
    requires Represents(cache, m) && ColonFree(t.org) && ColonFree(t.project)
    ensures Represents(cache - {Key(t.org, t.project, t.name)}, m - {t})
  {
    var k := Key(t.org, t.project, t.name);
    forall t' | t' in m && t' != t
      ensures Key(t'.org, t'.project, t'.name) != k
    {
      if Key(t'.org, t'.project, t'.name) == k {
        KeyInjective(t.org, t.project, t.name, t'.org, t'.project, t'.name);
      }
    }
    var cache' := cache - {k};
    forall k' | k' in cache'
      ensures exists t' :: t' in m - {t} && Key(t'.org, t'.project, t'.name) == k'
    {
      var t' :| t' in m && Key(t'.org, t'.project, t'.name) == k';
      assert t' in m - {t};
    }
  }

  type Roles = map<string, Role>
  type Groups = map<string, Group>

  /** The subject has the role directly, or through a group that is cached for the organization and project. */
  ghost predicate Inherits(groups: Groups, org: string, project: string, direct: seq<string>, memberOf: seq<string>,
                           role: string) {
    || role in direct
    || exists g <- memberOf :: Key(org, project, g) in groups && role in groups[Key(org, project, g)].roles
  }

  /** Some such role is cached for the resource's organization and project and allows the action on the resource. */
  ghost predicate Granted(roles: Roles, groups: Groups, direct: seq<string>, memberOf: seq<string>, r: ResourceURN,
                          action: Action) {
    exists name: string ::
      && Inherits(groups, r.organization, r.project, direct, memberOf, name)
      && Key(r.organization, r.project, name) in roles
      && RoleAllows(roles[Key(r.organization, r.project, name)], r, action)
  }

  /** The same over maps keyed by triples. */
  ghost predicate InheritsByTriple(groups: map<Triple, Group>, org: string, project: string, direct: seq<string>,
                                   memberOf: seq<string>, role: string) {
    || role in direct
    || exists g <- memberOf :: Triple(org, project, g) in groups && role in groups[Triple(org, project, g)].roles
  }

  ghost predicate GrantedByTriple(roles: map<Triple, Role>, groups: map<Triple, Group>, direct: seq<string>,
                                  memberOf: seq<string>, r: ResourceURN, action: Action) {
    exists name: string ::
      && InheritsByTriple(groups, r.organization, r.project, direct, memberOf, name)
      && Triple(r.organization, r.project, name) in roles
      && RoleAllows(roles[Triple(r.organization, r.project, name)], r, action)
  }

  lemma InheritsRefines(groups: Groups, groups3: map<Triple, Group>, org: string, project: string, direct: seq<string>,
                        memberOf: seq<string>, role: string)
    requires Represents(groups, groups3) && ColonFree(org) && ColonFree(project)
    ensures Inherits(groups, org, project, direct, memberOf, role) <==>
              InheritsByTriple(groups3, org, project, direct, memberOf, role)
  {
    forall g | g in memberOf
      ensures Key(org, project, g) in groups <==> Triple(org, project, g) in groups3
      ensures Triple(org, project, g) in groups3 ==> groups[Key(org, project, g)] == groups3[Triple(org, project, g)]
    {
      LookupRefines(groups, groups3, Triple(org, project, g));
    }
  }

  lemma GrantedRefines(roles: Roles, roles3: map<Triple, Role>, groups: Groups, groups3: map<Triple, Group>,
                       direct: seq<string>, memberOf: seq<string>, r: ResourceURN, action: Action)
    requires Represents(roles, roles3) && Represents(groups, groups3)
    requires ColonFree(r.organization) && ColonFree(r.project)
    ensures Granted(roles, groups, direct, memberOf, r, action) <==>
              GrantedByTriple(roles3, groups3, direct, memberOf, r, action)
  {
    forall name: string
      ensures Key(r.organization, r.project, name) in roles <==> Triple(r.organization, r.project, name) in roles3
      ensures Triple(r.organization, r.project, name) in roles3 ==>
                roles[Key(r.organization, r.project, name)] == roles3[Triple(r.organization, r.project, name)]
      ensures Inherits(groups, r.organization, r.project, direct, memberOf, name)
         <==> InheritsByTriple(groups3, r.organization, r.project, direct, memberOf, name)
    {
      LookupRefines(roles, roles3, Triple(r.organization, r.project, name));
      InheritsRefines(groups, groups3, r.organization, r.project, direct, memberOf, name);
    }
  }

  datatype Event = PutRole(role: Role) | DropRole(role: Role) | PutGroup(group: Group) | DropGroup(group: Group)

  datatype Caches = Caches(roles: Roles, groups: Groups)
  datatype TripleMaps = TripleMaps(roles: map<Triple, Role>, groups: map<Triple, Group>)

  function RoleKey(r: Role): string {
    Key(r.organization, r.project, r.name)
  }

  function GroupKey(g: Group): string {
    Key(g.organization, g.project, g.name)
  }

  function Update(c: Caches, e: Event): Caches {
    match e
    case PutRole(r) => c.(roles := c.roles[RoleKey(r) := r])
    case DropRole(r) => c.(roles := c.roles - {RoleKey(r)})
    case PutGroup(g) => c.(groups := c.groups[GroupKey(g) := g])
    case DropGroup(g) => c.(groups := c.groups - {GroupKey(g)})
  }

  /** What a lookup finds after an update: the entity put, nothing after a deletion, and else what was there before. */
  lemma UpdateMeaning(c: Caches, role: Role, group: Group, key: string)
    ensures RoleKey(role) in Update(c, PutRole(role)).roles && Update(c, PutRole(role)).roles[RoleKey(role)] == role
    ensures RoleKey(role) !in Update(c, DropRole(role)).roles
    ensures var groups := Update(c, PutGroup(group)).groups;
            GroupKey(group) in groups && groups[GroupKey(group)] == group
    ensures GroupKey(group) !in Update(c, DropGroup(group)).groups
    ensures key != RoleKey(role) ==> SameAt(c.roles, Update(c, PutRole(role)).roles, key)
    ensures key != RoleKey(role) ==> SameAt(c.roles, Update(c, DropRole(role)).roles, key)
    ensures key != GroupKey(group) ==> SameAt(c.groups, Update(c, PutGroup(group)).groups, key)
    ensures key != GroupKey(group) ==> SameAt(c.groups, Update(c, DropGroup(group)).groups, key)
    ensures Update(c, PutRole(role)).groups == Update(c, DropRole(role)).groups == c.groups
    ensures Update(c, PutGroup(group)).roles == Update(c, DropGroup(group)).roles == c.roles
  {
  }

  predicate SameAt<T(==)>(m: map<string, T>, m': map<string, T>, key: string) {
    (key in m <==> key in m') && (key in m ==> m[key] == m'[key])
  }

  function UpdateAll(c: Caches, es: seq<Event>): Caches {
    if es == [] then c else Update(UpdateAll(c, es[..|es| - 1]), es[|es| - 1])
  }

  const NO_CACHES := Caches(map[], map[])

  function MapsAfter(es: seq<Event>): TripleMaps {
    if es == [] then TripleMaps(map[], map[])
    else
      var m := MapsAfter(es[..|es| - 1]);
      match es[|es| - 1]
      case PutRole(r) => m.(roles := m.roles[Triple(r.organization, r.project, r.name) := r])
      case DropRole(r) => m.(roles := m.roles - {Triple(r.organization, r.project, r.name)})
      case PutGroup(g) => m.(groups := m.groups[Triple(g.organization, g.project, g.name) := g])
      case DropGroup(g) => m.(groups := m.groups - {Triple(g.organization, g.project, g.name)})
  }

  predicate ColonFreeEvent(e: Event) {
    match e
    case PutRole(r) => ColonFree(r.organization) && ColonFree(r.project)
    case DropRole(r) => ColonFree(r.organization) && ColonFree(r.project)
    case PutGroup(g) => ColonFree(g.organization) && ColonFree(g.project)
    case DropGroup(g) => ColonFree(g.organization) && ColonFree(g.project)
  }

  lemma {:induction false} CachesRefineMaps(es: seq<Event>)
    requires forall i :: 0 <= i < |es| ==> ColonFreeEvent(es[i])
    ensures Represents(UpdateAll(NO_CACHES, es).roles, MapsAfter(es).roles) &&
            Represents(UpdateAll(NO_CACHES, es).groups, MapsAfter(es).groups)
  {
    if es != [] {
      var before := es[..|es| - 1];
      CachesRefineMaps(before);
      var c, m := UpdateAll(NO_CACHES, before), MapsAfter(before);
      match es[|es| - 1]
      case PutRole(r) => PutRefines(c.roles, m.roles, Triple(r.organization, r.project, r.name), r);
      case DropRole(r) => RemoveRefines(c.roles, m.roles, Triple(r.organization, r.project, r.name));
      case PutGroup(g) => PutRefines(c.groups, m.groups, Triple(g.organization, g.project, g.name), g);
      case DropGroup(g) => RemoveRefines(c.groups, m.groups, Triple(g.organization, g.project, g.name));
    }
  }

  /** After any history of updates with colon-free organizations and projects, string keys decide as triples would. */
  lemma AuthorizeRefinesTriples(es: seq<Event>, direct: seq<string>, memberOf: seq<string>, r: ResourceURN,
                                action: Action)
    requires forall i :: 0 <= i < |es| ==> ColonFreeEvent(es[i])
    requires ColonFree(r.organization) && ColonFree(r.project)
    ensures Granted(UpdateAll(NO_CACHES, es).roles, UpdateAll(NO_CACHES, es).groups, direct, memberOf, r, action)
       <==> GrantedByTriple(MapsAfter(es).roles, MapsAfter(es).groups, direct, memberOf, r, action)
  {
    CachesRefineMaps(es);
    GrantedRefines(UpdateAll(NO_CACHES, es).roles, MapsAfter(es).roles, UpdateAll(NO_CACHES, es).groups,
                   MapsAfter(es).groups, direct, memberOf, r, action);
  }

  /** String keys decide about a resource as triples would, after every colon-free history and for every subject. */
  ghost predicate DecidesAsTriples(r: ResourceURN) {
    forall es: seq<Event>, direct, memberOf, action | (forall e <- es :: ColonFreeEvent(e)) ::
      Granted(UpdateAll(NO_CACHES, es).roles, UpdateAll(NO_CACHES, es).groups, direct, memberOf, r, action)
      <==> GrantedByTriple(MapsAfter(es).roles, MapsAfter(es).groups, direct, memberOf, r, action)
  }

  /** They do so exactly for the resources whose organization and project are free of colons. */
  lemma DecidesAsTriplesIffColonFree(r: ResourceURN)
    ensures DecidesAsTriples(r) <==> ColonFree(r.organization) && ColonFree(r.project)
  {
    if ColonFree(r.organization) && ColonFree(r.project) {
      forall es: seq<Event>, direct, memberOf, action | forall e <- es :: ColonFreeEvent(e)
        ensures Granted(UpdateAll(NO_CACHES, es).roles, UpdateAll(NO_CACHES, es).groups, direct, memberOf, r, action)
           <==> GrantedByTriple(MapsAfter(es).roles, MapsAfter(es).groups, direct, memberOf, r, action)
      {
        AuthorizeRefinesTriples(es, direct, memberOf, r, action);
      }
    } else {
      var o, p, n := ColonFreeTwin(r.organization, r.project, "n");
      var role := Allowing(o, p, n, r, ADMIN);
      var es := [PutRole(role)];
      OnePut(role);
      assert Permission(r, [ADMIN]) in role.permissions && RoleAllows(role, r, ADMIN);
      assert Inherits(map[], r.organization, r.project, ["n"], [], "n");
      assert Granted(UpdateAll(NO_CACHES, es).roles, UpdateAll(NO_CACHES, es).groups, ["n"], [], r, ADMIN);
      assert !GrantedByTriple(MapsAfter(es).roles, MapsAfter(es).groups, ["n"], [], r, ADMIN);
      assert forall e <- es :: ColonFreeEvent(e);
    }
  }

  lemma OnePut(a: Role)
    ensures UpdateAll(NO_CACHES, [PutRole(a)]) == Caches(map[RoleKey(a) := a], map[])
    ensures MapsAfter([PutRole(a)]) == TripleMaps(map[Triple(a.organization, a.project, a.name) := a], map[])
  {
    assert [PutRole(a)][..0] == [];
    assert UpdateAll(NO_CACHES, []) == NO_CACHES;
    assert UpdateAll(NO_CACHES, [PutRole(a)]) == Update(NO_CACHES, PutRole(a));
  }

  /** A key whose first two parts hold a colon is also the key of two parts that do not. */
  lemma ColonFreeTwin(o: string, p: string, n: string) returns (o': string, p': string, n': string)
    requires !ColonFree(o) || !ColonFree(p)
    ensures ColonFree(o') && ColonFree(p') && Key(o', p', n') == Key(o, p, n)
  {
    var key := Key(o, p, n);
    assert key == o + ":" + (p + ":" + n);
    assert key[|o|] == ':' && key[|o| + 1 + |p|] == ':';
    var rest;
    o', rest := AtFirstColon(key, |o|);
    assert rest[|o| + |p| - |o'|] == key[|o| + 1 + |p|];
    p', n' := AtFirstColon(rest, |o| + |p| - |o'|);
    assert o' + ":" + (p' + ":" + n') == o' + ":" + p' + ":" + n';
  }

  lemma {:induction false} AtFirstColon(s: string, i: nat) returns (a: string, b: string)
    requires i < |s| && s[i] == ':'
    ensures ColonFree(a) && s == a + ":" + b && |a| <= i
  {
    if s[0] == ':' {
      a, b := "", s[1..];
    } else {
      a, b := AtFirstColon(s[1..], i - 1);
      a := [s[0]] + a;
      assert s == [s[0]] + s[1..];
    }
  }

  /** A role of that organization, project and name that allows one action on one resource. */
  function Allowing(org: string, project: string, name: string, r: ResourceURN, action: Action): Role {
    Role(name, org, project, [Permission(r, [action])])
  }

  /**
   * Two roles with one key: when the role that allows the access is put first, the other one replaces it and the
   * access is denied; when it is put last, a subject with the other role alone is granted the access.
   */
  lemma CollisionChangesDecisions(org: string, p: string, q: string, n: string, system: string, resource: string,
                                  action: Action)
    ensures var r := ResourceURN(system, org, p + ":" + q, resource);
            var denied := [PutRole(Allowing(org, p + ":" + q, n, r, action)), PutRole(Role(q + ":" + n, org, p, []))];
            && !Granted(UpdateAll(NO_CACHES, denied).roles, map[], [n], [], r, action)
            && GrantedByTriple(MapsAfter(denied).roles, map[], [n], [], r, action)
    ensures var r' := ResourceURN(system, org, p, resource);
            var granted := [PutRole(Role(q + ":" + n, org, p, [])), PutRole(Allowing(org, p + ":" + q, n, r', action))];
            && Granted(UpdateAll(NO_CACHES, granted).roles, map[], [q + ":" + n], [], r', action)
            && !GrantedByTriple(MapsAfter(granted).roles, map[], [q + ":" + n], [], r', action)
  {
    KeysCollide(org, p, q, n);
    var empty := Role(q + ":" + n, org, p, []);
    TwoPuts(Allowing(org, p + ":" + q, n, ResourceURN(system, org, p + ":" + q, resource), action), empty);
    var r, r' := ResourceURN(system, org, p + ":" + q, resource), ResourceURN(system, org, p, resource);
    var first, last := Allowing(org, p + ":" + q, n, r, action), Allowing(org, p + ":" + q, n, r', action);
    TwoPuts(empty, last);
    assert Permission(r, [action]) in first.permissions && Permission(r', [action]) in last.permissions;
    assert RoleAllows(first, r, action) && RoleAllows(last, r', action) && !RoleAllows(empty, r, action);
    assert !RoleAllows(empty, r', action);
    assert Inherits(map[], org, p, [q + ":" + n], [], q + ":" + n);
    assert InheritsByTriple(map[], org, p + ":" + q, [n], [], n);
  }

  lemma TwoPuts(a: Role, b: Role)
    requires RoleKey(a) == RoleKey(b)
    ensures UpdateAll(NO_CACHES, [PutRole(a), PutRole(b)]).roles == map[RoleKey(a) := b]
    ensures MapsAfter([PutRole(a), PutRole(b)]).roles
         == map[Triple(a.organization, a.project, a.name) := a][Triple(b.organization, b.project, b.name) := b]
  {
    var es := [PutRole(a), PutRole(b)];
    assert es[..1] == [PutRole(a)] && [PutRole(a)][..0] == [];
    assert UpdateAll(NO_CACHES, []) == NO_CACHES;
    assert UpdateAll(NO_CACHES, [PutRole(a)]) == Update(NO_CACHES, PutRole(a));
    assert UpdateAll(NO_CACHES, es) == Update(UpdateAll(NO_CACHES, es[..1]), PutRole(b));
    assert MapsAfter(es[..1]).roles == map[Triple(a.organization, a.project, a.name) := a];
  }

  /** Who holds a role, which permission counts and what it has to match, spelt out. */
  ghost predicate HasPermission(roles: Roles, groups: Groups, direct: seq<string>, memberOf: seq<string>,
                                r: ResourceURN, action: Action, name: string, p: Permission) {
    var prefix := r.organization + ":" + r.project + ":";
    && (name in direct || exists g <- memberOf :: prefix + g in groups && name in groups[prefix + g].roles)
    && prefix + name in roles && p in roles[prefix + name].permissions
    && (p.pattern.system == "*" || p.pattern.system == r.system)
    && (p.pattern.organization == "*" || p.pattern.organization == r.organization)
    && (p.pattern.project == "*" || p.pattern.project == r.project)
    && (p.pattern.resource == "*" || p.pattern.resource == r.resource)
    && ("admin" in p.actions || action in p.actions)
  }

  lemma GrantedMeaning(roles: Roles, groups: Groups, direct: seq<string>, memberOf: seq<string>, r: ResourceURN,
                       action: Action)
    ensures Granted(roles, groups, direct, memberOf, r, action) <==>
            exists name, p :: HasPermission(roles, groups, direct, memberOf, r, action, name, p)
  {
    if Granted(roles, groups, direct, memberOf, r, action) {
      var name: string :|
        && Inherits(groups, r.organization, r.project, direct, memberOf, name)
        && Key(r.organization, r.project, name) in roles
        && RoleAllows(roles[Key(r.organization, r.project, name)], r, action);
      var p :| p in roles[Key(r.organization, r.project, name)].permissions
               && Matches(p.pattern, r) && Allows(p, action);
      assert HasPermission(roles, groups, direct, memberOf, r, action, name, p);
    }
    if name, p :| HasPermission(roles, groups, direct, memberOf, r, action, name, p) {
      assert Inherits(groups, r.organization, r.project, direct, memberOf, name);
      assert RoleAllows(roles[Key(r.organization, r.project, name)], r, action);
    }
  }

  // ----- Generalising never revokes -----

  /** Every permission of `r` is covered by one of `r'` with a pattern at least as general and at least its actions. */
  ghost predicate AtLeastAsGenerous(r': Role, r: Role) {
    forall p <- r.permissions ::
      exists p' <- r'.permissions ::
        Matches(p'.pattern, p.pattern) && (ADMIN in p'.actions || forall a <- p.actions :: a in p'.actions)
  }

  ghost predicate RolesGrow(roles: Roles, roles': Roles) {
    forall k :: k in roles ==> k in roles' && AtLeastAsGenerous(roles'[k], roles[k])
  }

  ghost predicate GroupsGrow(groups: Groups, groups': Groups) {
    forall k :: k in groups ==> k in groups' && forall n <- groups[k].roles :: n in groups'[k].roles
  }

  lemma GenerousRoleAllows(r': Role, r: Role, resource: ResourceURN, action: Action)
    requires AtLeastAsGenerous(r', r) && RoleAllows(r, resource, action)
    ensures RoleAllows(r', resource, action)
  {
    var p :| p in r.permissions && Matches(p.pattern, resource) && Allows(p, action);
    var p' :| p' in r'.permissions && Matches(p'.pattern, p.pattern) &&
        (ADMIN in p'.actions || forall a <- p.actions :: a in p'.actions);
    MatchesIsPreorder(p'.pattern, p.pattern, resource);
  }

  /** More roles and groups, more general patterns and more actions never take away access. */
  lemma GrowingNeverRevokes(roles: Roles, roles': Roles, groups: Groups, groups': Groups, direct: seq<string>,
                            direct': seq<string>, memberOf: seq<string>, memberOf': seq<string>,
                            r: ResourceURN, action: Action)
    requires RolesGrow(roles, roles') && GroupsGrow(groups, groups')
    requires (forall n <- direct :: n in direct') && (forall g <- memberOf :: g in memberOf')
    requires Granted(roles, groups, direct, memberOf, r, action)
    ensures Granted(roles', groups', direct', memberOf', r, action)
  {
    var name: string :|
      && Inherits(groups, r.organization, r.project, direct, memberOf, name)
      && Key(r.organization, r.project, name) in roles
      && RoleAllows(roles[Key(r.organization, r.project, name)], r, action);
    var k := Key(r.organization, r.project, name);
    GenerousRoleAllows(roles'[k], roles[k], r, action);
    assert Inherits(groups', r.organization, r.project, direct', memberOf', name);
  }

  // ----- The object -----

  datatype Outcome = Done | RepositoryFailed | Crashed

  function PutRoles(rs: seq<Role>): seq<Event> {
    seq(|rs|, i requires 0 <= i < |rs| => PutRole(rs[i]))
  }

  function PutGroups(gs: seq<Group>): seq<Event> {
    seq(|gs|, i requires 0 <= i < |gs| => PutGroup(gs[i]))
  }

  lemma UpdateOneMore(c: Caches, es: seq<Event>, i: nat)
    requires i < |es|
    ensures UpdateAll(c, es[..i + 1]) == Update(UpdateAll(c, es[..i]), es[i])
  {
    assert es[..i + 1][..i] == es[..i];
  }

  /** What a repository returns for a single entity: an error, nothing, or the entity. */
  datatype Fetched<T> = FetchError | Nothing | Found(value: T)

  class AuthorizationService {
    var rolesCache: Roles
    var groupsCache: Groups

    ghost function View(): Caches
      reads this
    {
      Caches(rolesCache, groupsCache)
    }

    constructor ()
      ensures View() == NO_CACHES
    {
      rolesCache, groupsCache := map[], map[];
    }

    /** CreateRole and UpdateRole differ only in the repository call, whose success is `stored`. */
    method CreateOrUpdateRole(role: Role, stored: bool) returns (outcome: Outcome)
      modifies this`rolesCache
      ensures outcome == if stored then Done else RepositoryFailed
      ensures View() == if stored then Update(old(View()), PutRole(role)) else old(View())
    {
      if !stored {
        return RepositoryFailed;
      }
      rolesCache := rolesCache[RoleKey(role) := role];
      outcome := Done;
    }

    method CreateOrUpdateGroup(group: Group, stored: bool) returns (outcome: Outcome)
      modifies this`groupsCache
      ensures outcome == if stored then Done else RepositoryFailed
      ensures View() == if stored then Update(old(View()), PutGroup(group)) else old(View())
    {
      if !stored {
        return RepositoryFailed;
      }
      groupsCache := groupsCache[GroupKey(group) := group];
      outcome := Done;
    }

    /** A repository that finds nothing and reports no error crashes the service: it reads the missing role's name. */
    method DeleteRole(fetched: Fetched<Role>, deleted: bool) returns (outcome: Outcome)
      modifies this`rolesCache
      ensures outcome == Crashed <==> fetched.Nothing?
      ensures outcome == Done <==> fetched.Found? && deleted
      ensures View() == if outcome == Done then Update(old(View()), DropRole(fetched.value)) else old(View())
    {
      if fetched.FetchError? || (fetched.Found? && !deleted) {
        return RepositoryFailed;
      }
      if fetched.Nothing? {
        return Crashed;
      }
      rolesCache := rolesCache - {RoleKey(fetched.value)};
      outcome := Done;
    }

    method DeleteGroup(fetched: Fetched<Group>, deleted: bool) returns (outcome: Outcome)
      modifies this`groupsCache
      ensures outcome == Crashed <==> fetched.Nothing?
      ensures outcome == Done <==> fetched.Found? && deleted
      ensures View() == if outcome == Done then Update(old(View()), DropGroup(fetched.value)) else old(View())
    {
      if fetched.FetchError? || (fetched.Found? && !deleted) {
        return RepositoryFailed;
      }
      if fetched.Nothing? {
        return Crashed;
      }
      groupsCache := groupsCache - {GroupKey(fetched.value)};
      outcome := Done;
    }

    /** Puts what the repositories list and removes nothing; a failure to list the groups keeps the new roles. */
    method SyncCache(roles: Option<seq<Role>>, groups: Option<seq<Group>>) returns (outcome: Outcome)
      modifies this
      ensures outcome == if roles.Some? && groups.Some? then Done else RepositoryFailed
      ensures var withRoles := if roles.Some? then UpdateAll(old(View()), PutRoles(roles.value)) else old(View());
              View() == if roles.Some? && groups.Some? then UpdateAll(withRoles, PutGroups(groups.value)) else withRoles
    {
      if roles.None? {
        return RepositoryFailed;
      }
      var puts := PutRoles(roles.value);
      for i := 0 to |roles.value|
        invariant View() == UpdateAll(old(View()), puts[..i])
      {
        UpdateOneMore(old(View()), puts, i);
        rolesCache := rolesCache[RoleKey(roles.value[i]) := roles.value[i]];
      }
      assert puts[..|roles.value|] == puts;
      if groups.None? {
        return RepositoryFailed;
      }
      ghost var withRoles := View();
      puts := PutGroups(groups.value);
      for i := 0 to |groups.value|
        invariant View() == UpdateAll(withRoles, puts[..i])
      {
        UpdateOneMore(withRoles, puts, i);
        groupsCache := groupsCache[GroupKey(groups.value[i]) := groups.value[i]];
      }
      assert puts[..|groups.value|] == puts;
      outcome := Done;
    }

    method Authorize(direct: seq<string>, resource: ResourceURN, action: Action, subjectGroups: seq<string>)
      returns (granted: bool)
      ensures granted <==> Granted(rolesCache, groupsCache, direct, subjectGroups, resource, action)
      ensures granted <==> exists name, p ::
                HasPermission(rolesCache, groupsCache, direct, subjectGroups, resource, action, name, p)
    {
      GrantedMeaning(rolesCache, groupsCache, direct, subjectGroups, resource, action);
      var rolesToCheck := direct;
      var org, project := resource.organization, resource.project;
      for i := 0 to |subjectGroups|
        invariant forall name :: name in rolesToCheck <==>
                    Inherits(groupsCache, org, project, direct, subjectGroups[..i], name)
      {
        var key := Key(org, project, subjectGroups[i]);
        assert subjectGroups[..i + 1] == subjectGroups[..i] + [subjectGroups[i]];
        if key in groupsCache {
          rolesToCheck := rolesToCheck + groupsCache[key].roles;
        }
      }
      assert subjectGroups[..|subjectGroups|] == subjectGroups;
      for i := 0 to |rolesToCheck|
        invariant forall j :: 0 <= j < i && Key(org, project, rolesToCheck[j]) in rolesCache ==>
                    !RoleAllows(rolesCache[Key(org, project, rolesToCheck[j])], resource, action)
      {
        var key := Key(org, project, rolesToCheck[i]);
        if key in rolesCache {
          var allows := RoleAllowsAction(rolesCache[key], resource, action);
          if allows {
            assert rolesToCheck[i] in rolesToCheck;
            return true;
          }
        }
      }
      return false;
    }
  }
}
