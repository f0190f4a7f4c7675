/**
 * `URLSearchParams`: an ordered list of name/value pairs with the
 * `get`, `set` and `delete` operations the pages use to build and edit
 * the query string of `/search`.
 */
module UrlParams {
  import opened Wrappers

  datatype Param = Param(name: string, value: string)

  type Params = seq<Param>

  /** `params.get(name)`: the value of the first pair with that name, or null. */
  function Get(p: Params, name: string): (r: Option<string>)
    ensures r.None? <==> forall i :: 0 <= i < |p| ==> p[i].name != name
    ensures r.Some? ==> exists i ::
              && 0 <= i < |p| && p[i] == Param(name, r.value)
              && forall j :: 0 <= j < i ==> p[j].name != name
  {
    if p == [] then None
    else if p[0].name == name then Some(p[0].value)
    else
      var r := Get(p[1..], name);
      assert r.Some? ==> exists i ::
               && 0 <= i < |p| && p[i] == Param(name, r.value)
               && forall j :: 0 <= j < i ==> p[j].name != name
      by {
        if r.Some? {
          var i :| && 0 <= i < |p[1..]| && p[1..][i] == Param(name, r.value)
                   && forall j :: 0 <= j < i ==> p[1..][j].name != name;
          assert p[i + 1] == Param(name, r.value);
          assert forall j :: 1 <= j < i + 1 ==> p[j] == p[1..][j - 1];
        }
      }
      r
  }

  /** No name occurs twice. */
  ghost predicate NamesDistinct(p: Params) {
    forall i, j :: 0 <= i < j < |p| ==> p[i].name != p[j].name
  }

  /** `params.delete(name)`: every pair with that name removed, the others kept in order. */
  function Delete(p: Params, name: string): (r: Params)
    ensures |r| <= |p|
    ensures Get(r, name) == None
    ensures forall other :: other != name ==> Get(r, other) == Get(p, other)
    ensures forall i :: 0 <= i < |r| ==> r[i] in p
    ensures NamesDistinct(p) ==> NamesDistinct(r)
  {
    if p == [] then []
    else if p[0].name == name then Delete(p[1..], name)
    else
      var rest := Delete(p[1..], name);
      assert forall i :: 0 <= i < |rest| ==> rest[i] in p[1..];
      assert NamesDistinct(p) ==> forall i :: 0 <= i < |rest| ==> rest[i].name != p[0].name;
      [p[0]] + rest
  }

  /** Replaces the value of the first pair named `name` and drops the later ones. */
  function ReplaceFirst(p: Params, name: string, value: string): (r: Params)
    requires Get(p, name).Some?
    ensures Get(r, name) == Some(value)
    ensures forall other :: other != name ==> Get(r, other) == Get(p, other)
    ensures NamesDistinct(p) ==> NamesDistinct(r)
  {
    if p[0].name == name then
      var rest := Delete(p[1..], name);
      ConsDistinct(Param(name, value), rest);
      [Param(name, value)] + rest
    else
      var rest := ReplaceFirst(p[1..], name, value);
      HeadNameUnique(p);
      ConsDistinct(p[0], rest);
      [p[0]] + rest
  }

  /** A pair in front of a list with distinct names that lacks its name keeps the names distinct. */
  lemma ConsDistinct(x: Param, rest: Params)
    ensures NamesDistinct(rest) && Get(rest, x.name) == None ==> NamesDistinct([x] + rest)
  {
  }

  /** In a list with distinct names, the first name does not occur again. */
  lemma HeadNameUnique(p: Params)
    requires p != []
    ensures NamesDistinct(p) ==> Get(p[1..], p[0].name) == None
  {
    assert forall i :: 0 <= i < |p[1..]| ==> p[1..][i] == p[i + 1];
  }

  /** `params.set(name, value)`: afterwards `name` has exactly this value; other names are untouched. */
  function Set(p: Params, name: string, value: string): (r: Params)
    ensures Get(r, name) == Some(value)
    ensures forall other :: other != name ==> Get(r, other) == Get(p, other)
    ensures NamesDistinct(p) ==> NamesDistinct(r)
    ensures Get(p, name) == None ==> r == p + [Param(name, value)]
  {
    if Get(p, name).Some? then ReplaceFirst(p, name, value)
    else
      var r := p + [Param(name, value)];
      assert forall other :: other != name ==> Get(r, other) == Get(p, other) by {
        forall other | other != name ensures Get(r, other) == Get(p, other) {
          GetAppend(p, Param(name, value), other);
        }
      }
      GetAppend(p, Param(name, value), name);
      r
  }

  /** Appending a pair changes `get` only for a name that was absent. */
  lemma {:induction false} GetAppend(p: Params, q: Param, name: string)
    ensures Get(p + [q], name) == if Get(p, name).Some? || q.name != name then Get(p, name) else Some(q.value)
  {
    if p != [] {
      assert (p + [q])[1..] == p[1..] + [q];
      GetAppend(p[1..], q, name);
    }
  }

  /** `p` holds exactly the pairs of `m`, each name once. */
  ghost predicate Describes(p: Params, m: map<string, string>) {
    && NamesDistinct(p)
    && forall name :: Get(p, name) == (if name in m then Some(m[name]) else None)
  }

  /** Reading one name of a described list. */
  lemma DescribedGet(p: Params, m: map<string, string>, name: string)
    requires Describes(p, m)
    ensures Get(p, name) == (if name in m then Some(m[name]) else None)
  {
  }

  /** `new URLSearchParams()` holds nothing. */
  lemma EmptyDescribes()
    ensures Describes([], map[])
  {
  }

  /** One `set` call adds or replaces exactly one entry of the described map. */
  lemma SetDescribes(p: Params, m: map<string, string>, name: string, value: string)
    ensures Describes(p, m) ==> Describes(Set(p, name, value), m[name := value])
  {
    if !Describes(p, m) {
      return;
    }
    var r := Set(p, name, value);
    forall other ensures Get(r, other) == (if other in m[name := value] then Some(m[name := value][other]) else None) {
      if other != name {
        assert Get(r, other) == Get(p, other);
      }
    }
  }

  /** `m` with `name` bound to `value` when `carried`, and unchanged otherwise. */
  function Carry(m: map<string, string>, carried: bool, name: string, value: string): map<string, string> {
    if carried then m[name := value] else m
  }

  /** A `set` call made only when `carried` keeps the link described by `Carry`. */
  lemma SetWhen(p: Params, m: map<string, string>, carried: bool, name: string, value: string)
    ensures Describes(p, m) ==> Describes(if carried then Set(p, name, value) else p, Carry(m, carried, name, value))
  {
    SetDescribes(p, m, name, value);
  }
}
