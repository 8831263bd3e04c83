/** A socket that its future owner is still setting up: it must be kept or released. */
module Candidates {
  import opened Basics
  import opened OperatingSystem
  import opened StreamIo

  /** The object holds just this socket, since `os0`. */
  ghost predicate Holding(os0: Os, os: Os, id: Id, h: int, endpoint: Endpoint) {
    && Consistent(os) && Contained(os0, os, {id}) && os.lists == os0.lists
    && Mine(os, id) == map[h := endpoint] && h != INVALID
    && endpoint.owner == id
  }

  lemma UseHolding(os0: Os, os: Os, id: Id, h: int, endpoint: Endpoint, use: Use)
    requires Holding(os0, os, id, h, endpoint) && FlowOf(use) == Quiet
    ensures Holding(os0, Note(Pop(os).0, Used(id, h, use)), id, h, endpoint)
  {
    var os' := Note(Pop(os).0, Used(id, h, use));
    UseCalm(os, id, h, use);
    ContainedCompose(os0, os, os', {id});
  }

  lemma SelectHolding(os0: Os, os: Os, id: Id, h: int, endpoint: Endpoint, timeout: nat)
    requires Holding(os0, os, id, h, endpoint)
    ensures Holding(os0, Select(os, id, h, timeout).0, id, h, endpoint)
  {
    hide Holding;
    UseHolding(os0, os, id, h, endpoint, Selected(timeout));
  }

  /** A call that succeeds leaves its mark on the endpoint, one that fails leaves it alone. */
  lemma AskHolding(os0: Os, os: Os, id: Id, h: int, endpoint: Endpoint, use: Use)
    requires Holding(os0, os, id, h, endpoint) && FlowOf(use) == Quiet
    ensures var (os', ok) := Ask(os, id, h, use);
            Holding(os0, os', id, h, if ok then endpoint.Mark(use) else endpoint)
  {
    var noted := Note(Pop(os).0, Used(id, h, use));
    UseHolding(os0, os, id, h, endpoint, use);
    var (os', ok) := Ask(os, id, h, use);
    if ok {
      assert h in Mine(noted, id);
      EndpointContained(noted, id, h, endpoint.Mark(use));
      ContainedCompose(os0, noted, os', {id});
    }
  }

  lemma DropHolding(os0: Os, os: Os, id: Id, h: int, endpoint: Endpoint)
    requires Holding(os0, os, id, h, endpoint)
    ensures Consistent(Release(os, id, h)) && Contained(os0, Release(os, id, h), {id})
    ensures Mine(Release(os, id, h), id) == map[] && Release(os, id, h).lists == os0.lists
  {
    assert h in Mine(os, id);
    ReleaseContained(os, id, h);
    ContainedCompose(os0, os, Release(os, id, h), {id});
  }

  lemma AcquireHolding(os: Os, id: Id, family: Option<Family>)
    requires Consistent(os) && Mine(os, id) == map[]
    ensures var (os', h) := Acquire(os, id, family);
            if h == INVALID
            then Consistent(os') && Contained(os, os', {id}) && Mine(os', id) == map[] && os'.lists == os.lists
            else Holding(os, os', id, h, NewEndpoint(id, family))
  {
    AcquireContained(os, id, family);
  }

  /** Resolving, working while the list is outstanding, and freeing it leaves no list behind. */
  lemma ResolveBracket(os: Os, id: Id, family: Option<Family>, os2: Os)
    requires Consistent(os)
    requires var (os1, found) := Resolve(os, family);
             found.Some? && Contained(os1, os2, {id}) && os2.lists == os1.lists
    ensures var list := Resolve(os, family).1.value.0;
            var os' := Free(os2, list);
            && Contained(os, os', {id}) && os'.lists == os.lists && os'.live == os2.live
            && Mine(os', id) == Mine(os2, id)
  {
    var (os1, found) := Resolve(os, family);
    ResolveContained(os, {id}, family);
    FreeContained(os2, {id}, found.value.0);
    ContainedCompose(os, os1, os2, {id});
    ContainedCompose(os, os2, Free(os2, found.value.0), {id});
    assert os1.lists - {found.value.0} == os.lists;
  }

  /** The object's handles after the work are what it keeps. */
  lemma BracketTidy(os: Os, id: Id, family: Option<Family>, os2: Os, s': Stream)
    requires Consistent(os)
    requires var (os1, found) := Resolve(os, family);
             found.Some? && Contained(os1, os2, {id}) && os2.lists == os1.lists && Owns(os2, id, s')
    ensures var os' := Free(os2, Resolve(os, family).1.value.0);
            Tidy(os, os', id, s') && Mine(os', id) == Mine(os2, id)
  {
    ResolveBracket(os, id, family, os2);
  }

  /** A failed resolve changes nothing. */
  lemma ResolveFails(os: Os, id: Id, family: Option<Family>, s: Stream)
    requires Owns(os, id, s) && Resolve(os, family).1.None?
    ensures Tidy(os, Resolve(os, family).0, id, s) && Mine(Resolve(os, family).0, id) == Mine(os, id)
  {
  }

  /** Resolving touches no handle. */
  lemma ResolveMine(os: Os, id: Id, family: Option<Family>)
    requires Consistent(os)
    ensures var os1 := Resolve(os, family).0;
            && Consistent(os1) && Contained(os, os1, {id})
            && Mine(os1, id) == Mine(os, id) && os1.live == os.live
  {
    ResolveContained(os, {id}, family);
  }
}
