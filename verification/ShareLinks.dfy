/** Share links: the rows, the statements on them, and how long a presigned URL may live. */
module ShareLinks {
  import opened Text
  import opened Keys

  const SECOND: int := 1_000_000_000
  const DEFAULT_SHARE_TTL: int := 7 * 24 * 3600 * SECOND
  const DEFAULT_PRESIGN_CAP: int := 10 * 60 * SECOND

  /** A row of `share_links`; its id is its position. Times are in nanoseconds. */
  datatype Link = Link(account: int, bucket: string, key: string, token: string, passwordHash: Option<string>,
                       expiresAt: Option<int>, maxAccess: Option<int>, accessCount: nat, allowDownload: bool,
                       allowPreview: bool, active: bool)

  /** Both handlers' expiry test, and the one of the statement. */
  predicate Unexpired(l: Link, now: int)
  {
    l.expiresAt.None? || l.expiresAt.value > now
  }

  predicate BelowLimit(l: Link)
  {
    l.maxAccess.None? || l.accessCount < l.maxAccess.value
  }

  /** The URL lifetime, 0 for no URL at all. */
  function PresignTTL(expiresAt: Option<int>, now: int, cap: int): (ttl: int)
    ensures ttl == 0 || ttl >= SECOND
    ensures ttl > 0 && expiresAt.Some? ==> now + ttl <= expiresAt.value
    ensures ttl <= if cap <= 0 then DEFAULT_PRESIGN_CAP else cap
    ensures ttl > 0 ==> ttl == (if cap <= 0 then DEFAULT_PRESIGN_CAP else cap) ||
                        (expiresAt.Some? && now + ttl == expiresAt.value)
    ensures ttl > 0 <==> (cap <= 0 || cap >= SECOND) && (expiresAt.None? || expiresAt.value - now >= SECOND)
  {
    var cap := if cap <= 0 then DEFAULT_PRESIGN_CAP else cap;
    if expiresAt.Some? && expiresAt.value - now <= 0 then 0
    else
      var ttl := if expiresAt.Some? && expiresAt.value - now < cap then expiresAt.value - now else cap;
      if ttl < SECOND then 0 else ttl
  }

  // ---------------------------------------------------------------------------
  // Statements

  predicate TokenTaken(links: seq<Link>, token: string)
  {
    exists i :: 0 <= i < |links| && links[i].token == token
  }

  predicate Bumps(links: seq<Link>, id: nat, now: int)
  {
    id < |links| && links[id].active && Unexpired(links[id], now) && BelowLimit(links[id])
  }

  function Bumped(links: seq<Link>, id: nat, now: int): seq<Link>
  {
    if Bumps(links, id, now) then links[id := links[id].(accessCount := links[id].accessCount + 1)] else links
  }

  function Revoked(links: seq<Link>, id: nat): seq<Link>
  {
    if id < |links| then links[id := links[id].(active := false)] else links
  }

  function NewRow(l: Link): Link
  {
    l.(accessCount := 0, active := true)
  }

  /** The rules `create` puts on a new link, and its default expiry. */
  predicate Creatable(l: Link, now: int)
  {
    && ValidUserKey(l.key) && (l.allowDownload || l.allowPreview)
    && (l.maxAccess.Some? ==> l.maxAccess.value >= 1)
    && (l.expiresAt.Some? ==> l.expiresAt.value > now)
  }

  function WithExpiry(l: Link, now: int): Link
  {
    if l.expiresAt.None? then l.(expiresAt := Some(now + DEFAULT_SHARE_TTL)) else l
  }

  class LinkStore {
    var links: seq<Link>

    constructor ()
      ensures links == []
    {
      links := [];
    }

    method Insert(l: Link) returns (taken: bool)
      modifies this
      ensures taken <==> exists i :: 0 <= i < |old(links)| && old(links)[i].token == l.token
      ensures links == if taken then old(links) else old(links) + [l.(accessCount := 0, active := true)]
    {
      for i := 0 to |links|
        invariant links == old(links) && forall k :: 0 <= k < i ==> links[k].token != l.token
      {
        if links[i].token == l.token { return true; }
      }
      links := links + [l.(accessCount := 0, active := true)];
      taken := false;
    }

    method GetByToken(token: string) returns (id: Option<nat>)
      ensures id.Some? <==> exists i :: 0 <= i < |links| && links[i].token == token
      ensures id.Some? ==> id.value < |links| && links[id.value].token == token
    {
      for i := 0 to |links|
        invariant forall k :: 0 <= k < i ==> links[k].token != token
      {
        if links[i].token == token { return Some(i); }
      }
      id := None;
    }

    /** Counts one access on one link, and only within its limit; nothing else changes. */
    method BumpAccess(id: nat, now: int) returns (count: nat, ok: bool)
      modifies this
      ensures ok <==>
                && id < |old(links)| && old(links)[id].active
                && (old(links)[id].expiresAt == None || old(links)[id].expiresAt.value > now)
                && (old(links)[id].maxAccess == None || old(links)[id].accessCount < old(links)[id].maxAccess.value)
      ensures |links| == |old(links)| && forall i :: 0 <= i < |links| && (!ok || i != id) ==> links[i] == old(links)[i]
      ensures ok ==> count == old(links)[id].accessCount + 1 && links[id] == old(links)[id].(accessCount := count)
      ensures ok && links[id].maxAccess.Some? ==> count <= links[id].maxAccess.value
    {
      count, ok := 0, Bumps(links, id, now);
      if ok {
        count := links[id].accessCount + 1;
        links := links[id := links[id].(accessCount := count)];
      }
    }

    /** Turns off one link for good: whatever the time, no access counts on it any more. Others stay. */
    method Revoke(id: nat)
      modifies this
      ensures |links| == |old(links)| && forall i :: 0 <= i < |links| && i != id ==> links[i] == old(links)[i]
      ensures id < |links| ==> !links[id].active && links[id] == old(links)[id].(active := false)
      ensures forall now: int :: !Bumps(links, id, now) && Bumped(links, id, now) == links
    {
      if id < |links| {
        links := links[id := links[id].(active := false)];
      }
    }

    /** Three tokens are drawn at most; the link is stored under the first one that is not taken. */
    method Create(request: Link, tokens: seq<string>, now: int) returns (id: Option<nat>)
      requires |tokens| == 3
      modifies this
      ensures id.Some? <==>
                && ValidUserKey(request.key) && (request.allowDownload || request.allowPreview)
                && (request.maxAccess == None || request.maxAccess.value >= 1)
                && (request.expiresAt == None || request.expiresAt.value > now)
                && exists i :: 0 <= i < 3 && !TokenTaken(old(links), tokens[i])
      ensures id.None? ==> links == old(links)
      ensures id.Some? ==> exists i ::
                && 0 <= i < 3 && !TokenTaken(old(links), tokens[i])
                && (forall j :: 0 <= j < i ==> TokenTaken(old(links), tokens[j]))
                && links == old(links) + [request.(token := tokens[i], accessCount := 0, active := true,
                                                   expiresAt := if request.expiresAt.Some? then request.expiresAt
                                                                else Some(now + 7 * 24 * 3600 * SECOND))]
      ensures id.Some? ==> id.value == |old(links)| && Unexpired(links[id.value], now) && BelowLimit(links[id.value])
    {
      if !Creatable(request, now) { return None; }
      var link := WithExpiry(request, now);
      for i := 0 to 3
        invariant links == old(links)
        invariant forall j :: 0 <= j < i ==> TokenTaken(old(links), tokens[j])
      {
        var taken := Insert(link.(token := tokens[i]));
        if !taken {
          return Some(|links| - 1);
        }
      }
      id := None;
    }
  }
}
