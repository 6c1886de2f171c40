/**
 * The stateful half of the sheepdog-ng VDI client: the cluster connection
 * with its transport history and its shared pending-request list, the VDI
 * handle with its lock-bound id and cached inode, and the block I/O
 * requests that are queued for the external dispatcher.
 */
module Handle {
  import opened Proto
  import opened Requests

  /** A cluster connection. */
  class Cluster {
    /** The scripted transport: the n-th request ever sent receives `reply(n)`. */
    const reply: Script
    /** Every request handed to the transport so far, in order. */
    var sent: seq<SdReq>
    /** `request_list`: pending block requests, shared by every handle of this connection. */
    var requestList: seq<Request>

    constructor (reply: Script)
      ensures this.reply == reply && sent == [] && requestList == []
    {
      this.reply := reply;
      sent := [];
      requestList := [];
    }

    /** sd_run_sdreq, as a scripted responder. */
    method RunSdReq(h: SdReq) returns (rsp: Response)
      modifies this`sent
      ensures sent == old(sent) + [h]
      ensures rsp == reply(|old(sent)|)
    {
      rsp := reply(|sent|);
      sent := sent + [h];
    }
  }

  /** `struct sd_request`: one block read or write waiting for the dispatcher. */
  class Request {
    const vdi: Vdi
    const efd: int
    /** The caller's buffer, shared and not copied. */
    const data: array<bv8>
    const length: nat
    const offset: int
    const write: bool
    /** The dispatcher's result, stored before it raises the completion signal. */
    var ret: Code

    constructor (vdi: Vdi, efd: int, data: array<bv8>, length: nat, offset: int, write: bool)
      ensures this.vdi == vdi && this.efd == efd && this.data == data
      ensures this.length == length && this.offset == offset && this.write == write
      ensures ret == ResSuccess
    {
      this.vdi := vdi;
      this.efd := efd;
      this.data := data;
      this.length := length;
      this.offset := offset;
      this.write := write;
      ret := ResSuccess;
    }
  }

  /** `struct sd_vdi`: an open VDI. */
  class Vdi {
    const cluster: Cluster
    const name: string
    /** The VDI id the lock reply bound this handle to. */
    var vid: u32
    /** The cached inode buffer. */
    var inode: Inode
    /** Set once free_vdi has released the handle. */
    var freed: bool

    /** alloc_vdi: a zeroed handle on `c` with an inode buffer not yet filled. */
    constructor (c: Cluster, name: string)
      ensures cluster == c && this.name == name
      ensures vid == 0 && !freed
    {
      cluster := c;
      this.name := name;
      vid := 0;
      inode := Inode(0, 0, 0, [], false);
      freed := false;
    }

    /** lock_vdi: take the normal lock by name; on success bind the id the reply carries. */
    method Lock() returns (ret: Code)
      modifies this`vid, cluster`sent
      ensures cluster.sent == old(cluster.sent) + [LockVdiReq(name)]
      ensures ret == cluster.reply(|old(cluster.sent)|).transport
      ensures vid == if ret == ResSuccess then cluster.reply(|old(cluster.sent)|).vdiId else old(vid)
    {
      var rsp := cluster.RunSdReq(LockVdiReq(name));
      if rsp.transport != ResSuccess {
        return rsp.transport;
      }
      vid := rsp.vdiId;
      return ResSuccess;
    }

    /** unlock_vdi: release the normal lock on the bound id. */
    method Unlock() returns (ret: Code)
      modifies cluster`sent
      ensures cluster.sent == old(cluster.sent) + [ReleaseVdiReq(vid)]
      ensures ret == cluster.reply(|old(cluster.sent)|).transport
    {
      var rsp := cluster.RunSdReq(ReleaseVdiReq(vid));
      if rsp.transport != ResSuccess {
        return rsp.transport;
      }
      return ResSuccess;
    }

    /**
     * sd_vdi_close: release the lock, and free the handle only when that
     * worked; a handle whose unlock failed stays allocated.
     */
    method Close() returns (ret: Code)
      requires !freed
      modifies this`freed, cluster`sent
      ensures cluster.sent == old(cluster.sent) + [ReleaseVdiReq(vid)]
      ensures ret == cluster.reply(|old(cluster.sent)|).transport
      ensures freed <==> ret == ResSuccess
    {
      ret := Unlock();
      if ret != ResSuccess {
        return ret;
      }
      freed := true;
      return 0;
    }

    /** sd_vdi_read. */
    method Read(buf: array<bv8>, count: nat, offset: int, efd: int, completion: Code) returns (ret: Code)
      requires !freed
      modifies cluster`requestList
      ensures efd < 0 ==> ret == ResSystemError && cluster.requestList == old(cluster.requestList)
      ensures efd >= 0 ==> ret == completion && Enqueued(cluster, old(cluster.requestList), this, buf, count, offset, false, efd)
    {
      ret := Submit(buf, count, offset, false, efd, completion);
    }

    /** sd_vdi_write. */
    method Write(buf: array<bv8>, count: nat, offset: int, efd: int, completion: Code) returns (ret: Code)
      requires !freed
      modifies cluster`requestList
      ensures efd < 0 ==> ret == ResSystemError && cluster.requestList == old(cluster.requestList)
      ensures efd >= 0 ==> ret == completion && Enqueued(cluster, old(cluster.requestList), this, buf, count, offset, true, efd)
    {
      ret := Submit(buf, count, offset, true, efd, completion);
    }

    /**
     * The body shared by sd_vdi_read and sd_vdi_write: allocate, enqueue,
     * wait, return the request's result. `efd` is what eventfd returned;
     * `completion` is the result the dispatcher stores before it signals.
     */
    method Submit(buf: array<bv8>, count: nat, offset: int, isWrite: bool, efd: int, completion: Code)
      returns (ret: Code)
      modifies cluster`requestList
      ensures efd < 0 ==> ret == ResSystemError && cluster.requestList == old(cluster.requestList)
      ensures efd >= 0 ==> ret == completion && Enqueued(cluster, old(cluster.requestList), this, buf, count, offset, isWrite, efd)
    {
      var req, errno := AllocRequest(this, buf, count, offset, isWrite, efd);
      if req == null {
        return errno;
      }
      QueueRequest(req);
      req.ret := completion;
      ret := req.ret;
    }
  }

  /**
   * The pending list grew by exactly one new request at its tail, belonging
   * to handle `vdi` and carrying the caller's buffer, count, offset and direction; earlier entries are
   * untouched.
   */
  twostate predicate Enqueued(c: Cluster, before: seq<Request>, vdi: Vdi, buf: array<bv8>, count: nat,
                              offset: int, isWrite: bool, efd: int)
    reads c
  {
    && |c.requestList| == |before| + 1
    && c.requestList[..|before|] == before
    && var req := c.requestList[|before|];
       && fresh(req) && req.vdi == vdi
       && req.data == buf && req.length == count && req.offset == offset
       && req.write == isWrite && req.efd == efd
  }

  /** alloc_request: fails with SYSTEM_ERROR when no eventfd could be made. */
  method AllocRequest(vdi: Vdi, buf: array<bv8>, count: nat, offset: int, isWrite: bool, efd: int)
    returns (req: Request?, errno: Code)
    ensures efd < 0 <==> req == null
    ensures req == null ==> errno == ResSystemError
    ensures req != null ==>
      && fresh(req) && req.vdi == vdi && req.efd == efd && req.data == buf
      && req.length == count && req.offset == offset && req.write == isWrite
  {
    if efd < 0 {
      return null, ResSystemError;
    }
    req := new Request(vdi, efd, buf, count, offset, isWrite);
    errno := ResSuccess;
  }

  /** queue_request: append to the tail of the connection's pending list. */
  method QueueRequest(req: Request)
    modifies req.vdi.cluster`requestList
    ensures req.vdi.cluster.requestList == old(req.vdi.cluster.requestList) + [req]
  {
    var c := req.vdi.cluster;
    c.requestList := c.requestList + [req];
  }

  datatype OpenResult = Opened(handle: Vdi) | OpenFailed(errno: Code)

  /**
   * sd_vdi_open: lock, read the whole inode of the bound id, refuse a
   * snapshot. Once the lock is held, every failure releases it again.
   */
  method SdVdiOpen(L: Layout, c: Cluster, name: string) returns (r: OpenResult)
    modifies c`sent
    ensures var n := |old(c.sent)|;
            var lock := c.reply(n);
            var read := c.reply(n + 1);
            var readReq := ReadObjectReq(L.vdiOid(lock.vdiId), L.inodeSize, 0, false);
            && (lock.transport != ResSuccess ==>
                  r == OpenFailed(lock.transport) && c.sent == old(c.sent) + [LockVdiReq(name)])
            && (lock.transport == ResSuccess && read.transport != ResSuccess ==>
                  && r == OpenFailed(read.transport)
                  && c.sent == old(c.sent) + [LockVdiReq(name), readReq, ReleaseVdiReq(lock.vdiId)])
            && (lock.transport == ResSuccess && read.transport == ResSuccess && read.inode.snapshot ==>
                  && r == OpenFailed(ResInvalidParms)
                  && c.sent == old(c.sent) + [LockVdiReq(name), readReq, ReleaseVdiReq(lock.vdiId)])
            && (lock.transport == ResSuccess && read.transport == ResSuccess && !read.inode.snapshot ==>
                  && r.Opened? && fresh(r.handle)
                  && r.handle.cluster == c && r.handle.name == name && !r.handle.freed
                  && r.handle.vid == lock.vdiId && r.handle.inode == read.inode
                  && c.sent == old(c.sent) + [LockVdiReq(name), readReq])
  {
    var v := new Vdi(c, name);
    var ret := v.Lock();
    if ret != ResSuccess {
      v.freed := true;
      return OpenFailed(ret);
    }
    var rsp := c.RunSdReq(ReadObjectReq(L.vdiOid(v.vid), L.inodeSize, 0, false));
    if rsp.transport != ResSuccess {
      var _ := v.Unlock();
      v.freed := true;
      return OpenFailed(rsp.transport);
    }
    v.inode := rsp.inode;
    if v.inode.snapshot {
      var _ := v.Unlock();
      v.freed := true;
      return OpenFailed(ResInvalidParms);
    }
    return Opened(v);
  }
}
