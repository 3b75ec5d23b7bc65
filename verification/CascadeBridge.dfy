/** Realizes a tree's link events on the media plane and remembers what it established. */
module CascadeBridge {
  import opened Common
  import opened CascadePlan
  import opened SfuMedia

  class CascadeBridge {
    const media: ReferenceSfuMedia
    var attached: bool
    var links: map<RoomId, set<Link>>

    /** The bridge and the media plane agree, room by room. */
    ghost predicate Valid() reads this, media {
      media.Valid() && NoEmpty(links) && media.links == links
    }

    constructor (media: ReferenceSfuMedia)
      requires media.Valid() && media.links == map[]
      ensures Valid() && this.media == media && !attached && links == map[]
    {
      this.media := media;
      attached, links := false, map[];
    }

    method OnLinkCreated(room: RoomId, from: Id, to: Id)
      requires Valid()
      modifies `links, media`links
      ensures Valid() && links == With(old(links), room, Get(old(links), room) + {Link(from, to)})
    {
      var set' := if room in links then links[room] else {};
      links := links[room := set' + {Link(from, to)}];
      media.PipeLink(room, from, to);
    }

    method OnLinkDropped(room: RoomId, from: Id, to: Id)
      requires Valid()
      modifies `links, media`links
      ensures Valid() && links == With(old(links), room, Get(old(links), room) - {Link(from, to)})
    {
      if room in links {
        var rest := links[room] - {Link(from, to)};
        links := links[room := rest];
        if rest == {} {
          links := links - {room};
        }
      }
      media.UnpipeLink(room, from, to);
    }

    method OnTreeDropped(room: RoomId)
      modifies `links
      ensures links == old(links) - {room}
    {
      links := links - {room};
    }

    method Attach()
      modifies `attached
      ensures attached
    {
      attached := true;
    }

    /** Tears down everything the bridge established. */
    method Detach()
      requires Valid()
      modifies this, media`links
      ensures Valid() && !attached
      ensures if old(attached) then links == map[] && media.links == map[] else links == old(links)
    {
      if !attached {
        return;
      }
      attached := false;
      var todo := links.Keys;
      while todo != {}
        invariant media.Valid() && !attached && todo <= links.Keys && links == old(links)
        invariant media.links == map room | room in todo :: links[room]
      {
        var room :| room in todo;
        UnpipeRoom(room);
        todo := todo - {room};
      }
      assert media.links == map[];
      links := map[];
    }

    method UnpipeRoom(room: RoomId)
      requires media.Valid() && room in links && room in media.links && media.links[room] == links[room]
      modifies media`links
      ensures media.Valid() && media.links == old(media.links) - {room}
    {
      var todo := links[room];
      while todo != {}
        invariant media.Valid() && todo <= links[room]
        invariant media.links == With(old(media.links), room, todo)
      {
        var l :| l in todo;
        media.UnpipeLink(room, l.from, l.to);
        assert l == Link(l.from, l.to);
        todo := todo - {l};
      }
    }
  }
}
