// resolution.py: the walk as it runs, over caches it fills in place.
module Resolver {
  import opened Wrappers
  import opened Resolution

  class Resolver {
    const setting: Setting
    var gated: map<Member, bool>
    var blocked: set<Member>
    var content: map<Member, Page>
    var calls: nat

    constructor (setting: Setting)
      ensures this.setting == setting && Now() == World(Caches(map[], {}, map[]), 0)
    {
      this.setting := setting;
      gated, blocked, content, calls := map[], {}, map[], 0;
    }

    function Now(): World
      reads this
    {
      World(Caches(gated, blocked, content), calls)
    }

    // One upstream content() call.
    method Content(m: Member) returns (got: Outcome)
      modifies this`calls
      ensures got == setting.upstream(m, old(calls)) && calls == old(calls) + 1
    {
      got := setting.upstream(m, calls);
      calls := calls + 1;
    }

    // _fetch_member_content
    method FetchMember(m: Member) returns (got: Outcome)
      modifies this`calls
      ensures (Now(), got) == Fetch(old(Now()), setting, m)
      // The second call is made exactly if the first neither serves nor answers `gated`.
      ensures Gives(setting, m, old(calls), got, calls - old(calls))
      ensures got.Served? <==>
        || setting.upstream(m, old(calls)).Served?
        || (setting.upstream(m, old(calls)) != Refused(GATED) && setting.upstream(m, old(calls) + 1).Served?)
    {
      got := Crashed;
      var attempt := 1;
      while attempt <= 2
        invariant 1 <= attempt <= 3 && calls == old(calls) + attempt - 1
        invariant attempt > 1 ==> got == setting.upstream(m, calls - 1)
        invariant attempt == 2 ==> !got.Served? && got != Refused(GATED)
        invariant attempt == 3 ==>
          !setting.upstream(m, old(calls)).Served? && setting.upstream(m, old(calls)) != Refused(GATED)
        decreases 3 - attempt
      {
        got := Content(m);
        if got.Served? || got == Refused(GATED) {
          return;
        }
        attempt := attempt + 1;
      }
    }

    // _resolve_group_content_once
    method ResolveOnce(groupKey: string, attempts: seq<Member>) returns (page: Option<Page>)
      modifies this
      ensures var (w, end) := Resolve(old(Now()), setting, groupKey, attempts);
        Now() == w && page == if end.ServedBy? then Some(end.page) else None
    {
      var answered := CachedGroupPage(Now().caches, attempts);
      if answered.Some? {
        return Some(answered.value.1);
      }
      page := WalkMembers(groupKey, attempts);
    }

    method WalkMembers(groupKey: string, attempts: seq<Member>) returns (page: Option<Page>)
      modifies this
      ensures var (w, end) := Walk(old(Now()), setting, groupKey, attempts);
        Now() == w && page == if end.ServedBy? then Some(end.page) else None
    {
      for position := 0 to |attempts|
        invariant Walk(Now(), setting, groupKey, attempts[position..])
          == Walk(old(Now()), setting, groupKey, attempts)
      {
        var m := attempts[position];
        assert attempts[position..][1..] == attempts[position + 1..];
        var known := MemberCached(Now().caches, m);
        if known.Hit? {
          return Some(known.page);
        }
        if !known.Miss? {
          return None;
        }
        if m.provider in setting.registered {
          var ended;
          page, ended := AskMember(groupKey, m);
          if ended {
            return;
          }
        }
      }
      return None;
    }

    // The walk's step for one member nothing is known about.
    method AskMember(groupKey: string, m: Member) returns (page: Option<Page>, ended: bool)
      modifies this
      ensures var (w1, got) := Fetch(old(Now()), setting, m);
        var (w2, end) := AfterFetch(w1, setting, m, got, groupKey);
        Now() == w2 && (ended <==> end.Some?)
        && page == if end.Some? && end.value.ServedBy? then Some(end.value.page) else None
    {
      var got := FetchMember(m);
      page, ended := None, true;
      match got {
        case Served(resp) =>
          if setting.blocks(resp.country) {
            blocked := blocked + {m};
            return;
          }
          page := Some(resp.(groupKey := groupKey));
          content := content[m := page.value];
        case Refused(code) =>
          if code == GATED {
            gated := gated[m := true];
          }
          ended := !Walkable(code);
        case Crashed =>
          ended := false;
      }
    }
  }
}
