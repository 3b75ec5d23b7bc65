/** The reference media plane: idempotent sets of routes and links per room. */
module SfuMedia {
  import opened Common
  import opened CascadePlan

  type RoomId = string

  /** A room without an entry has nothing; no entry is ever left empty. */
  function Get<T>(m: map<RoomId, set<T>>, room: RoomId): set<T> {
    if room in m then m[room] else {}
  }

  function With<T>(m: map<RoomId, set<T>>, room: RoomId, s: set<T>): map<RoomId, set<T>> {
    if s == {} then m - {room} else m[room := s]
  }

  ghost predicate NoEmpty<T>(m: map<RoomId, set<T>>) {
    forall room :: room in m ==> m[room] != {}
  }

  lemma WithGet<T>(m: map<RoomId, set<T>>, room: RoomId)
    requires NoEmpty(m)
    ensures With(m, room, Get(m, room)) == m
  {
  }

  lemma WithWith<T>(m: map<RoomId, set<T>>, room: RoomId, s: set<T>, s': set<T>)
    ensures With(With(m, room, s), room, s') == With(m, room, s')
    ensures Get(With(m, room, s), room) == s
  {
  }

  class ReferenceSfuMedia {
    var routes: map<RoomId, set<Id>>
    var links: map<RoomId, set<Link>>

    ghost predicate Valid() reads this {
      NoEmpty(routes) && NoEmpty(links)
    }

    constructor ()
      ensures Valid() && routes == map[] && links == map[]
    {
      routes, links := map[], map[];
    }

    method AddRoute(room: RoomId, node: Id)
      requires Valid()
      modifies `routes
      ensures Valid() && routes == With(old(routes), room, Get(old(routes), room) + {node})
    {
      var set' := if room in routes then routes[room] else {};
      if node in set' {
        assert Get(routes, room) + {node} == routes[room];
        assert routes == routes[room := routes[room]];
        return;
      }
      routes := routes[room := set' + {node}];
    }

    method RemoveRoute(room: RoomId)
      requires Valid()
      modifies `routes
      ensures Valid() && routes == old(routes) - {room}
    {
      if room in routes {
        routes := routes - {room};
      }
    }

    method RemoveCascadeRoute(room: RoomId, node: Id)
      requires Valid()
      modifies `routes
      ensures Valid() && routes == With(old(routes), room, Get(old(routes), room) - {node})
    {
      if room !in routes || node !in routes[room] {
        assert Get(routes, room) - {node} == Get(routes, room);
        WithGet(routes, room);
        return;
      }
      var rest := routes[room] - {node};
      if rest == {} {
        routes := routes - {room};
      } else {
        routes := routes[room := rest];
      }
    }

    method PipeLink(room: RoomId, from: Id, to: Id)
      requires Valid()
      modifies `links
      ensures Valid() && links == With(old(links), room, Get(old(links), room) + {Link(from, to)})
    {
      var set' := if room in links then links[room] else {};
      if Link(from, to) in set' {
        assert Get(links, room) + {Link(from, to)} == links[room];
        assert links == links[room := links[room]];
        return;
      }
      links := links[room := set' + {Link(from, to)}];
    }

    method UnpipeLink(room: RoomId, from: Id, to: Id)
      requires Valid()
      modifies `links
      ensures Valid() && links == With(old(links), room, Get(old(links), room) - {Link(from, to)})
    {
      if room !in links || Link(from, to) !in links[room] {
        assert Get(links, room) - {Link(from, to)} == Get(links, room);
        WithGet(links, room);
        return;
      }
      var rest := links[room] - {Link(from, to)};
      if rest == {} {
        links := links - {room};
      } else {
        links := links[room := rest];
      }
    }
  }
}
