/**
 * Container removal over the docker HTTP API (`HttpRm.exec`): one request per
 * container id, sent in order on the daemon socket; an empty id list sends
 * nothing and fails.
 */
module HttpRemoval {
  import opened Wrappers

  /** A request on the socket, built from the request text of one id. */
  datatype Request = Request(text: string)

  /** The daemon socket: everything sent on it, in order. */
  class Socket {
    var sent: seq<Request>

    constructor ()
      ensures sent == []
    {
      sent := [];
    }

    method Send(r: Request)
      modifies this
      ensures sent == old(sent) + [r]
    {
      sent := sent + [r];
    }
  }

  const EmptyIdList: string := "Received empty container ID list for removal"

  /** The requests for `ids`, one per id, each built by `toRequest` from its id. */
  function Requests(toRequest: string -> string, ids: seq<string>): (rs: seq<Request>)
    ensures |rs| == |ids|
    ensures forall i :: 0 <= i < |ids| ==> rs[i] == Request(toRequest(ids[i]))
  {
    if ids == [] then [] else [Request(toRequest(ids[0]))] + Requests(toRequest, ids[1..])
  }

  /** Requests for consecutive runs of ids are the requests of the whole run. */
  lemma {:induction false} RequestsAppend(toRequest: string -> string, ids: seq<string>, more: seq<string>)
    ensures Requests(toRequest, ids + more) == Requests(toRequest, ids) + Requests(toRequest, more)
  {
    var l, r := Requests(toRequest, ids + more), Requests(toRequest, ids) + Requests(toRequest, more);
    assert |l| == |r|;
    forall i | 0 <= i < |l| ensures l[i] == r[i] {
      if i < |ids| {
        assert (ids + more)[i] == ids[i];
      } else {
        assert (ids + more)[i] == more[i - |ids|];
      }
    }
  }

  class HttpRm {
    /** `spec.toRequest`: the request text for one container id. */
    const toRequest: string -> string
    const socket: Socket
    const containerIds: seq<string>

    constructor (socket: Socket, toRequest: string -> string, containerIds: seq<string>)
      ensures this.socket == socket && this.toRequest == toRequest && this.containerIds == containerIds
    {
      this.socket := socket;
      this.toRequest := toRequest;
      this.containerIds := containerIds;
    }

    /** `exec`: sends the request of every id in order, then fails if there was none. */
    method Exec() returns (o: Outcome)
      modifies socket
      ensures socket.sent == old(socket.sent) + Requests(toRequest, containerIds)
      ensures o == Pass <==> containerIds != []
      ensures o.Fail? ==> o.error == IllegalState(EmptyIdList)
    {
      var ran := false;
      for i := 0 to |containerIds|
        invariant socket.sent == old(socket.sent) + Requests(toRequest, containerIds[..i])
        invariant ran <==> i > 0
      {
        socket.Send(Request(toRequest(containerIds[i])));
        ran := true;
        assert containerIds[..i + 1] == containerIds[..i] + [containerIds[i]];
        RequestsAppend(toRequest, containerIds[..i], [containerIds[i]]);
      }
      assert containerIds[..|containerIds|] == containerIds;
      if !ran {
        return Fail(IllegalState(EmptyIdList));
      }
      o := Pass;
    }
  }
}
