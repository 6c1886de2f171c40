/**
 * The request-building half of the sheepdog-ng VDI client: the object and
 * VDI request builders, the name/tag lookup, the inode read, and the three
 * lifecycle calls (create, snapshot, clone).
 *
 * Each call is a function of the scripted transport: it returns the code
 * the C function returns, the requests it hands to the transport in order,
 * and whatever it stores through an out-parameter.
 */
module Requests {
  import opened Proto

  datatype Outcome<T> = Outcome(ret: Code, issued: seq<SdReq>, value: T)

  /**
   * How read_object and write_object turn a response into their code: a
   * transport error is returned before the response's own result is looked at.
   */
  function ObjResult(rsp: Response): (ret: Code)
    ensures rsp.transport != ResSuccess ==> ret == rsp.transport
    ensures ret == ResSuccess <==> rsp.transport == ResSuccess && rsp.result == ResSuccess
    ensures ret == rsp.transport || ret == rsp.result
  {
    if rsp.transport != ResSuccess then rsp.transport
    else if rsp.result != ResSuccess then rsp.result
    else ResSuccess
  }

  /* ---------------------------------------------------------------- object I/O */

  /** The header write_object sends. */
  function WriteObjectReq(oid: u64, cowOid: u64, data: seq<char>, datalen: u32, offset: u64,
                          flags: set<Flag>, create: bool, direct: bool): (h: SdReq)
    ensures h.opcode == CreateAndWriteObj <==> create
    ensures h.opcode == WriteObj <==> !create
    ensures forall f :: f in h.flags <==>
      f in flags || f == CmdWrite || (f == CmdCow && cowOid != 0) || (f == CmdDirect && direct)
    ensures h.oid == oid && h.cowOid == cowOid && h.offset == offset
    ensures h.dataLength == datalen && h.data == data && h.vdi == NoVdiFields
  {
    var withWrite := flags + {CmdWrite};
    var withCow := if cowOid != 0 then withWrite + {CmdCow} else withWrite;
    var withDirect := if direct then withCow + {CmdDirect} else withCow;
    SdReq(if create then CreateAndWriteObj else WriteObj,
          withDirect, datalen, oid, cowOid, offset, NoVdiFields, data)
  }

  function WriteObject(script: Script, oid: u64, cowOid: u64, data: seq<char>, datalen: u32,
                       offset: u64, flags: set<Flag>, create: bool, direct: bool): (o: Outcome<()>)
    ensures o.issued == [WriteObjectReq(oid, cowOid, data, datalen, offset, flags, create, direct)]
    ensures o.ret == ResSuccess <==> script(0).transport == ResSuccess && script(0).result == ResSuccess
    ensures script(0).transport != ResSuccess ==> o.ret == script(0).transport
    ensures o.ret == ObjResult(script(0))
  {
    Outcome(ObjResult(script(0)), [WriteObjectReq(oid, cowOid, data, datalen, offset, flags, create, direct)], ())
  }

  /** The header read_object sends. */
  function ReadObjectReq(oid: u64, datalen: u32, offset: u64, direct: bool): (h: SdReq)
    ensures h.opcode == ReadObj
    ensures CmdDirect in h.flags <==> direct
    ensures h.flags <= {CmdDirect}
    ensures h.oid == oid && h.cowOid == 0 && h.offset == offset
    ensures h.dataLength == datalen && h.data == [] && h.vdi == NoVdiFields
  {
    SdReq(ReadObj, if direct then {CmdDirect} else {}, datalen, oid, 0, offset, NoVdiFields, [])
  }

  /** read_object; the value is what the reply left in the data buffer. */
  function ReadObject(script: Script, oid: u64, datalen: u32, offset: u64, direct: bool): (o: Outcome<Inode>)
    ensures o.issued == [ReadObjectReq(oid, datalen, offset, direct)]
    ensures o.ret == ResSuccess <==> script(0).transport == ResSuccess && script(0).result == ResSuccess
    ensures script(0).transport != ResSuccess ==> o.ret == script(0).transport
    ensures o.ret == ObjResult(script(0))
    ensures o.value == script(0).inode
  {
    Outcome(ObjResult(script(0)), [ReadObjectReq(oid, datalen, offset, direct)], script(0).inode)
  }

  /* ---------------------------------------------------------------- lookup */

  /** The lookup buffer find_vdi sends: a zeroed name field followed by a zeroed tag field. */
  function LookupBuffer(name: string, tag: Option<string>): (buf: seq<char>)
    ensures |buf| == MaxVdiLen + MaxVdiTagLen
    ensures buf[..MaxVdiLen] == Field(name, MaxVdiLen)
    ensures buf[MaxVdiLen..] == if tag.Some? then Field(tag.value, MaxVdiTagLen) else Zeros(MaxVdiTagLen)
  {
    Field(name, MaxVdiLen) + (if tag.Some? then Field(tag.value, MaxVdiTagLen) else Zeros(MaxVdiTagLen))
  }

  /** The receiver reads the name and the tag back out of the lookup buffer. */
  lemma LookupBufferReadsBack(name: string, tag: Option<string>)
    requires |CString(name)| < MaxVdiLen
    requires tag.Some? ==> |CString(tag.value)| < MaxVdiTagLen
    ensures CString(LookupBuffer(name, tag)[..MaxVdiLen]) == CString(name)
    ensures CString(LookupBuffer(name, tag)[MaxVdiLen..]) == if tag.Some? then CString(tag.value) else []
  {
    FieldReadsBack(name, MaxVdiLen);
    if tag.Some? {
      FieldReadsBack(tag.value, MaxVdiTagLen);
    } else {
      CStringTerminated([], Zeros(MaxVdiTagLen));
      assert [] + Zeros(MaxVdiTagLen) == Zeros(MaxVdiTagLen);
    }
  }

  function FindVdiReq(name: string, tag: Option<string>): (h: SdReq)
    ensures h.opcode == GetVdiInfo && h.flags == {CmdWrite}
    ensures h.dataLength == MaxVdiLen + MaxVdiTagLen == |h.data|
    ensures h.data == LookupBuffer(name, tag)
    ensures !Mutates(h)
  {
    SdReq(GetVdiInfo, {CmdWrite}, MaxVdiLen + MaxVdiTagLen, 0, 0, 0, NoVdiFields, LookupBuffer(name, tag))
  }

  /**
   * find_vdi. `wantVid` says whether the caller passed a `vid` pointer; the
   * value is what was stored through it (`None`: it was left alone).
   */
  function FindVdi(script: Script, name: string, tag: Option<string>, wantVid: bool): (o: Outcome<Option<u32>>)
    ensures o.issued == [FindVdiReq(name, tag)]
    ensures script(0).transport != ResSuccess ==> o.ret == script(0).transport
    ensures script(0).transport == ResSuccess ==> o.ret == script(0).result
    ensures o.value.Some? <==> wantVid && script(0).transport == ResSuccess && script(0).result == ResSuccess
    ensures o.value.Some? ==> o.value.value == script(0).vdiId
  {
    var rsp := script(0);
    var issued := [FindVdiReq(name, tag)];
    if rsp.transport != ResSuccess then Outcome(rsp.transport, issued, None)
    else Outcome(rsp.result, issued, if rsp.result == ResSuccess && wantVid then Some(rsp.vdiId) else None)
  }

  /**
   * vdi_read_inode: look the VDI up, then read its inode header (or the
   * whole inode) directly from offset 0 of its inode object.
   */
  function VdiReadInode(L: Layout, script: Script, name: string, tag: Option<string>, onlyHeader: bool)
    : (o: Outcome<Option<Inode>>)
    ensures 1 <= |o.issued| <= 2 && o.issued[0] == FindVdiReq(name, tag)
    ensures |o.issued| == 1 <==> FindVdi(script, name, tag, true).ret != ResSuccess
    ensures |o.issued| == 1 ==> o.ret == FindVdi(script, name, tag, true).ret
    ensures |o.issued| == 2 ==>
      o.issued[1] == ReadObjectReq(L.vdiOid(script(0).vdiId),
                                   if onlyHeader then L.inodeHeaderSize else L.inodeSize, 0, true)
    ensures |o.issued| == 2 ==> o.ret == ObjResult(script(1))
    ensures o.ret == ResSuccess <==> o.value.Some?
    ensures o.value.Some? ==> o.value.value == script(1).inode
    ensures forall i :: 0 <= i < |o.issued| ==> !Mutates(o.issued[i])
  {
    var f := FindVdi(script, name, tag, true);
    if f.ret != ResSuccess then Outcome(f.ret, f.issued, None)
    else
      var len := if onlyHeader then L.inodeHeaderSize else L.inodeSize;
      var rd := ReadObject(Shift(script, 1), L.vdiOid(f.value.value), len, 0, true);
      Outcome(rd.ret, f.issued + rd.issued, if rd.ret == ResSuccess then Some(rd.value) else None)
  }

  /* ---------------------------------------------------------------- VDI requests */

  /** The header do_vdi_create sends; the data buffer is the new VDI's name. */
  function NewVdiReq(name: string, size: u64, baseVid: u32, snapshot: bool, storePolicy: u8): (h: SdReq)
    ensures h.opcode == NewVdi && h.flags == {CmdWrite}
    ensures h.dataLength == MaxVdiLen && h.data == name
    ensures h.vdi.baseVdiId == baseVid && h.vdi.vdiSize == size && h.vdi.storePolicy == storePolicy
    ensures h.vdi.snapid == 1 <==> snapshot
    ensures h.vdi.snapid == 0 <==> !snapshot
    ensures Mutates(h)
  {
    SdReq(NewVdi, {CmdWrite}, MaxVdiLen, 0, 0, 0,
          VdiFields(baseVid, if snapshot then 1 else 0, size, storePolicy, 0), name)
  }

  /**
   * do_vdi_create. Only the transport code is consulted; `wantVid` says
   * whether the caller passed a `vdi_id` pointer.
   */
  function DoVdiCreate(script: Script, name: string, size: u64, baseVid: u32, wantVid: bool,
                       snapshot: bool, storePolicy: u8): (o: Outcome<Option<u32>>)
    ensures o.issued == [NewVdiReq(name, size, baseVid, snapshot, storePolicy)]
    ensures o.ret == script(0).transport
    ensures o.value.Some? <==> wantVid && o.ret == ResSuccess
    ensures o.value.Some? ==> o.value.value == script(0).vdiId
  {
    var issued := [NewVdiReq(name, size, baseVid, snapshot, storePolicy)];
    if script(0).transport != ResSuccess then Outcome(script(0).transport, issued, None)
    else Outcome(ResSuccess, issued, if wantVid then Some(script(0).vdiId) else None)
  }

  /** The header lock_vdi sends: a normal lock keyed by the VDI's name. */
  function LockVdiReq(name: string): (h: SdReq)
    ensures h.opcode == LockVdi && h.flags == {CmdWrite}
    ensures h.dataLength == MaxVdiLen && h.data == name
    ensures !Mutates(h)
  {
    SdReq(LockVdi, {CmdWrite}, MaxVdiLen, 0, 0, 0, NoVdiFields, name)
  }

  /** The header unlock_vdi sends: release the normal lock on `vid`. */
  function ReleaseVdiReq(vid: u32): (h: SdReq)
    ensures h.opcode == ReleaseVdi && h.flags == {}
    ensures h.vdi.lockType == LockTypeNormal && h.vdi.baseVdiId == vid
    ensures h.dataLength == 0 && h.data == []
    ensures !Mutates(h)
  {
    SdReq(ReleaseVdi, {}, 0, 0, 0, 0, VdiFields(vid, 0, 0, 0, LockTypeNormal), [])
  }

  /* ---------------------------------------------------------------- lifecycle */

  /** The store policy sd_vdi_create picks: 1 (hyper volume) above the old size limit. */
  function StorePolicyFor(L: Layout, size: u64): (p: u8)
    ensures p == 1 <==> size > L.oldMaxVdiSize
    ensures p == 0 <==> size <= L.oldMaxVdiSize
  {
    if size > L.oldMaxVdiSize then 1 else 0
  }

  /** sd_vdi_create. */
  function SdVdiCreate(L: Layout, script: Script, name: CStr, size: u64): (o: Outcome<()>)
    ensures size > L.maxVdiSize || size == 0 || NullOrEmpty(name) ==>
      o.ret == ResInvalidParms && o.issued == []
    ensures !(size > L.maxVdiSize || size == 0 || NullOrEmpty(name)) ==>
      && name.Some?
      && o.issued == [NewVdiReq(name.value, size, 0, false, StorePolicyFor(L, size))]
      && o.ret == script(0).transport
    ensures o.issued != [] ==>
      && |o.issued| == 1
      && o.issued[0].opcode == NewVdi
      && o.issued[0].vdi.baseVdiId == 0 && o.issued[0].vdi.snapid == 0
      && o.issued[0].vdi.vdiSize == size
      && (o.issued[0].vdi.storePolicy == 1 <==> size > L.oldMaxVdiSize)
      && (o.issued[0].vdi.storePolicy == 0 <==> size <= L.oldMaxVdiSize)
  {
    if size > L.maxVdiSize then Outcome(ResInvalidParms, [], ())
    else if size == 0 then Outcome(ResInvalidParms, [], ())
    else if NullOrEmpty(name) then Outcome(ResInvalidParms, [], ())
    else
      var cr := DoVdiCreate(script, name.value, size, 0, false, false, StorePolicyFor(L, size));
      Outcome(cr.ret, cr.issued, ())
  }

  /** The tag write of sd_vdi_snapshot: the tag, in place, at the tag offset of the inode object. */
  function TagWriteReq(L: Layout, vdiId: u32, tag: string): (h: SdReq)
    ensures h.opcode == WriteObj && h.flags == {CmdWrite}
    ensures h.oid == L.vdiOid(vdiId) && h.cowOid == 0 && h.offset == L.tagOffset
    ensures h.dataLength == MaxVdiTagLen && h.data == tag
  {
    WriteObjectReq(L.vdiOid(vdiId), 0, tag, MaxVdiTagLen, L.tagOffset, {}, false, false)
  }

  /**
   * The last two steps of sd_vdi_snapshot, once the live inode passed its
   * checks: write the tag into that inode, then create the new live head on
   * top of it. `script` starts at the tag write. A failed create does not
   * undo the tag write.
   */
  function SnapshotBranch(L: Layout, script: Script, tag: string, inode: Inode): (o: Outcome<()>)
    ensures 1 <= |o.issued| <= 2 && o.issued[0] == TagWriteReq(L, inode.vdiId, tag)
    ensures |o.issued| == 1 <==> ObjResult(script(0)) != ResSuccess
    ensures |o.issued| == 1 ==> o.ret == ObjResult(script(0))
    ensures |o.issued| == 2 ==>
      && o.issued[1] == NewVdiReq(inode.name, inode.vdiSize, inode.vdiId, true, 0)
      && o.ret == script(1).transport
    ensures forall i :: 0 <= i < |o.issued| ==> Mutates(o.issued[i])
  {
    var w := WriteObject(script, L.vdiOid(inode.vdiId), 0, tag, MaxVdiTagLen, L.tagOffset, {}, false, false);
    if w.ret != ResSuccess then Outcome(w.ret, w.issued, ())
    else
      var cr := DoVdiCreate(Shift(script, 1), inode.name, inode.vdiSize, inode.vdiId, false, true, 0);
      Outcome(cr.ret, w.issued + cr.issued, ())
  }

  /**
   * sd_vdi_snapshot after the tag lookup said NO_TAG: read the live inode
   * header, refuse a hyper volume, then branch. `script` starts at the
   * lookup of the live inode.
   */
  function SnapshotOfLive(L: Layout, script: Script, name: string, tag: string): (o: Outcome<()>)
    ensures 1 <= |o.issued| <= 4 && o.issued[0] == FindVdiReq(name, None)
    ensures |o.issued| >= 2 ==>
      o.issued[1] == ReadObjectReq(L.vdiOid(script(0).vdiId), L.inodeHeaderSize, 0, true)
    ensures |o.issued| <= 2 ==> o.ret != ResSuccess
    ensures |o.issued| == 1 <==> FindVdi(script, name, None, true).ret != ResSuccess
    ensures |o.issued| == 1 ==> o.ret == FindVdi(script, name, None, true).ret
    ensures |o.issued| == 2 ==>
      o.ret == (if ObjResult(script(1)) != ResSuccess then ObjResult(script(1)) else ResInvalidParms)
    ensures |o.issued| == 2 && ObjResult(script(1)) == ResSuccess ==> script(1).inode.storePolicy != 0
    ensures forall i :: 0 <= i < |o.issued| ==> (Mutates(o.issued[i]) <==> i >= 2)
    ensures |o.issued| >= 3 ==>
      && ObjResult(script(1)) == ResSuccess && script(1).inode.storePolicy == 0
      && var b := SnapshotBranch(L, Shift(script, 2), tag, script(1).inode);
         o.issued == o.issued[..2] + b.issued && o.ret == b.ret
  {
    var rd := VdiReadInode(L, script, name, None, true);
    if rd.ret != ResSuccess then Outcome(rd.ret, rd.issued, ())
    else if rd.value.value.storePolicy != 0 then Outcome(ResInvalidParms, rd.issued, ())
    else
      var b := SnapshotBranch(L, Shift(script, 2), tag, rd.value.value);
      Outcome(b.ret, rd.issued + b.issued, ())
  }

  /**
   * sd_vdi_snapshot: reject empty arguments, insist that the tag is not yet
   * in use, then carry on with the live inode.
   */
  function SdVdiSnapshot(L: Layout, script: Script, name: CStr, tag: CStr): (o: Outcome<()>)
    ensures NullOrEmpty(tag) || NullOrEmpty(name) ==> o.ret == ResInvalidParms && o.issued == []
    ensures !(NullOrEmpty(tag) || NullOrEmpty(name)) ==>
      name.Some? && tag.Some? && 1 <= |o.issued| && o.issued[0] == FindVdiReq(name.value, tag)
    ensures !(NullOrEmpty(tag) || NullOrEmpty(name)) && FindVdi(script, name.value, tag, false).ret == ResSuccess ==>
      o.ret == ResInvalidParms && o.issued == [FindVdiReq(name.value, tag)]
    ensures !(NullOrEmpty(tag) || NullOrEmpty(name)) &&
            FindVdi(script, name.value, tag, false).ret !in {ResSuccess, ResNoTag} ==>
      o.ret == FindVdi(script, name.value, tag, false).ret && o.issued == [FindVdiReq(name.value, tag)]
    ensures !(NullOrEmpty(tag) || NullOrEmpty(name)) && FindVdi(script, name.value, tag, false).ret == ResNoTag ==>
      && var live := SnapshotOfLive(L, Shift(script, 1), name.value, tag.value);
         o.issued == [FindVdiReq(name.value, tag)] + live.issued && o.ret == live.ret
    ensures forall i :: 0 <= i < |o.issued| ==> (Mutates(o.issued[i]) <==> i >= 3)
  {
    if NullOrEmpty(tag) then Outcome(ResInvalidParms, [], ())
    else if NullOrEmpty(name) then Outcome(ResInvalidParms, [], ())
    else
      var f := FindVdi(script, name.value, tag, false);
      if f.ret == ResSuccess then Outcome(ResInvalidParms, f.issued, ())
      else if f.ret != ResNoTag then Outcome(f.ret, f.issued, ())
      else
        var live := SnapshotOfLive(L, Shift(script, 1), name.value, tag.value);
        Outcome(live.ret, f.issued + live.issued, ())
  }
  /**
   * sd_vdi_clone: reject empty arguments (destination name, source tag,
   * source name), read the full inode of the tagged source, then create the
   * destination on top of it with the source's size and policy.
   */
  function SdVdiClone(L: Layout, script: Script, srcName: CStr, srcTag: CStr, dstName: CStr): (o: Outcome<()>)
    ensures NullOrEmpty(dstName) || NullOrEmpty(srcTag) || NullOrEmpty(srcName) ==>
      o.ret == ResInvalidParms && o.issued == []
    ensures !(NullOrEmpty(dstName) || NullOrEmpty(srcTag) || NullOrEmpty(srcName)) ==>
      && srcName.Some? && srcTag.Some? && dstName.Some?
      && 1 <= |o.issued| && o.issued[0] == FindVdiReq(srcName.value, srcTag)
    ensures |o.issued| >= 2 ==>
      o.issued[1] == ReadObjectReq(L.vdiOid(script(0).vdiId), L.inodeSize, 0, true)
    ensures 1 <= |o.issued| <= 2 ==> o.ret != ResSuccess
    ensures 1 <= |o.issued| <= 2 ==> o.ret == VdiReadInode(L, script, srcName.value, srcTag, false).ret
    ensures 1 <= |o.issued| ==> (|o.issued| == 1 <==> FindVdi(script, srcName.value, srcTag, true).ret != ResSuccess)
    ensures forall i :: 0 <= i < |o.issued| && i < 2 ==> !Mutates(o.issued[i])
    ensures |o.issued| == 3 ==>
      && ObjResult(script(1)) == ResSuccess
      && o.issued[2] == NewVdiReq(dstName.value, script(1).inode.vdiSize, script(1).inode.vdiId,
                                  false, script(1).inode.storePolicy)
      && o.ret == script(2).transport
    ensures |o.issued| <= 3
    ensures o.ret == ResSuccess ==> |o.issued| == 3
  {
    if NullOrEmpty(dstName) then Outcome(ResInvalidParms, [], ())
    else if NullOrEmpty(srcTag) then Outcome(ResInvalidParms, [], ())
    else if NullOrEmpty(srcName) then Outcome(ResInvalidParms, [], ())
    else
      var rd := VdiReadInode(L, script, srcName.value, srcTag, false);
      if rd.ret != ResSuccess then Outcome(rd.ret, rd.issued, ())
      else
        var inode := rd.value.value;
        var cr := DoVdiCreate(Shift(script, 2), dstName.value, inode.vdiSize, inode.vdiId,
                              false, false, inode.storePolicy);
        Outcome(cr.ret, rd.issued + cr.issued, ())
  }

  /* ---------------------------------------------------------------- cross-call properties */

  /** SnapshotOfLive request by request, counted from the lookup of the live inode. */
  lemma LiveSteps(L: Layout, script: Script, name: string, tag: string)
    ensures var o := SnapshotOfLive(L, script, name, tag);
      && (|o.issued| >= 3 ==> o.issued[2] == TagWriteReq(L, script(1).inode.vdiId, tag))
      && (|o.issued| == 3 ==> o.ret == ObjResult(script(2)) && o.ret != ResSuccess)
      && (|o.issued| == 4 ==>
            && ObjResult(script(2)) == ResSuccess
            && o.issued[3] == NewVdiReq(script(1).inode.name, script(1).inode.vdiSize,
                                        script(1).inode.vdiId, true, 0)
            && o.ret == script(3).transport)
  {
    var o := SnapshotOfLive(L, script, name, tag);
    if |o.issued| >= 3 {
      var later := Shift(script, 2);
      var b := SnapshotBranch(L, later, tag, script(1).inode);
      assert o.issued[2..] == b.issued;
      assert later(0) == script(2) && later(1) == script(3);
    }
  }

  /**
   * sd_vdi_snapshot request by request: the second lookup (of the live
   * inode) follows only NO_TAG; the header read comes third; a failed read
   * or a hyper volume ends the call there; the tag write comes fourth and
   * ends the call when it fails; the create comes fifth, and its transport
   * code is the result, with the tag write already done.
   */
  lemma SnapshotSteps(L: Layout, script: Script, name: CStr, tag: CStr)
    ensures var o := SdVdiSnapshot(L, script, name, tag);
      && |o.issued| <= 5
      && (o.ret == ResSuccess ==> |o.issued| == 5)
      && (|o.issued| >= 2 ==>
            && name.Some? && tag.Some?
            && FindVdi(script, name.value, tag, false).ret == ResNoTag
            && o.issued[1] == FindVdiReq(name.value, None))
      && (|o.issued| >= 2 ==> (|o.issued| == 2 <==> FindVdi(Shift(script, 1), name.value, None, true).ret != ResSuccess))
      && (|o.issued| == 2 ==> o.ret == FindVdi(Shift(script, 1), name.value, None, true).ret)
      && (|o.issued| >= 3 ==>
            o.issued[2] == ReadObjectReq(L.vdiOid(script(1).vdiId), L.inodeHeaderSize, 0, true))
      && (|o.issued| == 3 ==>
            o.ret == (if ObjResult(script(2)) != ResSuccess then ObjResult(script(2)) else ResInvalidParms))
      && (|o.issued| >= 4 ==>
            && tag.Some?
            && ObjResult(script(2)) == ResSuccess && script(2).inode.storePolicy == 0
            && o.issued[3] == TagWriteReq(L, script(2).inode.vdiId, tag.value))
      && (|o.issued| == 4 ==> o.ret == ObjResult(script(3)) && o.ret != ResSuccess)
      && (|o.issued| == 5 ==>
            && ObjResult(script(3)) == ResSuccess
            && o.issued[4] == NewVdiReq(script(2).inode.name, script(2).inode.vdiSize,
                                        script(2).inode.vdiId, true, 0)
            && o.ret == script(4).transport)
  {
    var o := SdVdiSnapshot(L, script, name, tag);
    if |o.issued| >= 2 {
      var later := Shift(script, 1);
      LiveSteps(L, later, name.value, tag.value);
      var live := SnapshotOfLive(L, later, name.value, tag.value);
      assert o.issued[1..] == live.issued;
      assert later(0) == script(1) && later(1) == script(2) && later(2) == script(3) && later(3) == script(4);
    }
  }

  /**
   * The snapshot's branch point: the new head's base is the very VDI whose
   * inode object received the tag, a snapshot (snapid 1) in the legacy
   * policy with the tagged VDI's size and name.
   */
  lemma SnapshotBranchesFromTaggedInode(L: Layout, script: Script, name: CStr, tag: CStr)
    requires |SdVdiSnapshot(L, script, name, tag).issued| == 5
    ensures var o := SdVdiSnapshot(L, script, name, tag);
            && o.issued[3].opcode == WriteObj && o.issued[3].offset == L.tagOffset
            && o.issued[3].oid == L.vdiOid(o.issued[4].vdi.baseVdiId)
            && o.issued[4].opcode == NewVdi && o.issued[4].vdi.snapid == 1
            && o.issued[4].vdi.storePolicy == 0
            && o.issued[4].vdi.vdiSize == script(2).inode.vdiSize
            && o.issued[4].data == script(2).inode.name
  {
    SnapshotSteps(L, script, name, tag);
  }

  /** Two scripts that agree on the first `n` replies. */
  ghost predicate AgreeUpTo(s1: Script, s2: Script, n: nat)
  {
    forall k: nat :: k < n ==> s1(k) == s2(k)
  }

  lemma AgreeUpToShift(s1: Script, s2: Script, n: nat, d: nat)
    requires AgreeUpTo(s1, s2, n) && d <= n
    ensures AgreeUpTo(Shift(s1, d), Shift(s2, d), n - d)
  {
    forall k: nat | k < n - d ensures Shift(s1, d)(k) == Shift(s2, d)(k) {
      assert s1(d + k) == s2(d + k);
    }
  }

  lemma ReadInodeReadsOnlyItsReplies(L: Layout, s1: Script, s2: Script, name: string, tag: Option<string>, onlyHeader: bool)
    requires AgreeUpTo(s1, s2, |VdiReadInode(L, s1, name, tag, onlyHeader).issued|)
    ensures VdiReadInode(L, s1, name, tag, onlyHeader) == VdiReadInode(L, s2, name, tag, onlyHeader)
  {
    assert s1(0) == s2(0);
    if |VdiReadInode(L, s1, name, tag, onlyHeader).issued| == 2 {
      assert s1(1) == s2(1);
      assert Shift(s1, 1)(0) == Shift(s2, 1)(0);
    }
  }

  lemma BranchReadsOnlyItsReplies(L: Layout, s1: Script, s2: Script, tag: string, inode: Inode)
    requires AgreeUpTo(s1, s2, |SnapshotBranch(L, s1, tag, inode).issued|)
    ensures SnapshotBranch(L, s1, tag, inode) == SnapshotBranch(L, s2, tag, inode)
  {
    assert s1(0) == s2(0);
    if |SnapshotBranch(L, s1, tag, inode).issued| == 2 {
      assert s1(1) == s2(1);
      assert Shift(s1, 1)(0) == Shift(s2, 1)(0);
    }
  }

  lemma LiveReadsOnlyItsReplies(L: Layout, s1: Script, s2: Script, name: string, tag: string)
    requires AgreeUpTo(s1, s2, |SnapshotOfLive(L, s1, name, tag).issued|)
    ensures SnapshotOfLive(L, s1, name, tag) == SnapshotOfLive(L, s2, name, tag)
  {
    var n := |SnapshotOfLive(L, s1, name, tag).issued|;
    var rd := VdiReadInode(L, s1, name, None, true);
    assert rd.issued == SnapshotOfLive(L, s1, name, tag).issued[..|rd.issued|];
    ReadInodeReadsOnlyItsReplies(L, s1, s2, name, None, true);
    if n >= 3 {
      AgreeUpToShift(s1, s2, n, 2);
      BranchReadsOnlyItsReplies(L, Shift(s1, 2), Shift(s2, 2), tag, s1(1).inode);
    }
  }

  /**
   * sd_vdi_snapshot consumes its replies in order and looks at no reply
   * beyond the requests it issued: any script that agrees on those replies
   * gives the same outcome.
   */
  lemma SnapshotReadsOnlyItsReplies(L: Layout, s1: Script, s2: Script, name: CStr, tag: CStr)
    requires AgreeUpTo(s1, s2, |SdVdiSnapshot(L, s1, name, tag).issued|)
    ensures SdVdiSnapshot(L, s1, name, tag) == SdVdiSnapshot(L, s2, name, tag)
  {
    var n := |SdVdiSnapshot(L, s1, name, tag).issued|;
    if n >= 1 {
      assert s1(0) == s2(0);
      if n >= 2 {
        AgreeUpToShift(s1, s2, n, 1);
        LiveReadsOnlyItsReplies(L, Shift(s1, 1), Shift(s2, 1), name.value, tag.value);
      }
    }
  }

  /** The same holds of sd_vdi_clone. */
  lemma CloneReadsOnlyItsReplies(L: Layout, s1: Script, s2: Script, srcName: CStr, srcTag: CStr, dstName: CStr)
    requires AgreeUpTo(s1, s2, |SdVdiClone(L, s1, srcName, srcTag, dstName).issued|)
    ensures SdVdiClone(L, s1, srcName, srcTag, dstName) == SdVdiClone(L, s2, srcName, srcTag, dstName)
  {
    var n := |SdVdiClone(L, s1, srcName, srcTag, dstName).issued|;
    if n >= 1 {
      ReadInodeReadsOnlyItsReplies(L, s1, s2, srcName.value, srcTag, false);
      if n == 3 {
        assert s1(2) == s2(2);
        assert Shift(s1, 2)(0) == Shift(s2, 2)(0);
      }
    }
  }

  /** And of sd_vdi_create, which needs no reply at all when it rejects its arguments. */
  lemma CreateReadsOnlyItsReplies(L: Layout, s1: Script, s2: Script, name: CStr, size: u64)
    requires AgreeUpTo(s1, s2, |SdVdiCreate(L, s1, name, size).issued|)
    ensures SdVdiCreate(L, s1, name, size) == SdVdiCreate(L, s2, name, size)
  {
    if SdVdiCreate(L, s1, name, size).issued != [] {
      assert s1(0) == s2(0);
    }
  }
}
