# sheepdog-ng VDI client, modelled in Dafny

This project models the client side of sheepdog-ng's virtual disk images
(VDIs), as `lib/shared/vdi.c` implements it. Every public call turns its
arguments into an ordered series of cluster requests. The model makes those
requests visible and proves what the series looks like on every path through
the code.

- `proto.dfy`, module `Proto`: the protocol vocabulary the client uses.
  - Result codes are integers: SUCCESS 0x00, INVALID_PARMS 0x05,
    SYSTEM_ERROR 0x06, NO_TAG 0x0E.
  - Opcodes and request flags are datatypes. OR-ing a single-bit flag into a
    header is modelled as set union.
  - It also holds the request header (`SdReq`), the inode header (`Inode`)
    and the transport's reply (`Response`).
  - The transport `sd_run_sdreq` is a scripted responder (`Script`): the
    k-th request of a call receives the k-th reply.
  - The helpers `CString` and `Field` give the C-string and fixed-width-field
    view of the lookup buffer.
- `requests.dfy`, module `Requests`: the pure part.
  - The request builders: `write_object`, `read_object`, `do_vdi_create`,
    and the headers of `lock_vdi` and `unlock_vdi`.
  - `find_vdi` and `vdi_read_inode`.
  - The lifecycle calls `sd_vdi_create`, `sd_vdi_snapshot` and
    `sd_vdi_clone`.
  - Each is a function of the script. It returns an `Outcome`: the code the C
    function returns, the requests it issued in order, and whatever it
    stores through an out-parameter.
- `handle.dfy`, module `Handle`: the stateful part, as classes.
  - The cluster connection (`Cluster`) holds the history of requests sent
    to the transport and the shared pending list `request_list`.
  - The VDI handle (`Vdi`) holds the lock-bound `vid`, the cached inode and
    a freed flag.
  - The queued block request (`Request`) carries the caller's buffer by
    reference. Its `ret` is filled in by the dispatcher.
  - Methods model `lock_vdi`, `unlock_vdi`, `sd_vdi_open`, `sd_vdi_close`,
    `alloc_request`, `queue_request`, `sd_vdi_read` and `sd_vdi_write`.

Some constants live in the protocol headers, and those headers are not part
of this model: `SD_INODE_SIZE`, `SD_INODE_HEADER_SIZE`,
`offsetof(struct sd_inode, tag)`, `SD_MAX_VDI_SIZE`, `SD_OLD_MAX_VDI_SIZE`
and `vid_to_vdi_oid`. Every operation takes them as a `Layout` parameter, so
nothing is claimed about their values. `vdi_is_snapshot` is the `snapshot`
field of the inode that a reply carries. `SD_MAX_VDI_LEN` and
`SD_MAX_VDI_TAG_LEN` are 256.

Where the design description and the code differ, the model follows the
code:
- Every rejection returns `SD_RES_INVALID_PARMS`. This includes a duplicate
  tag, a hyper-volume snapshot and opening a snapshot. The only other local
  failure is a failed eventfd, which returns `SD_RES_SYSTEM_ERROR`. There
  is no separate "state conflict" code.
- `sd_vdi_snapshot` checks the tag before the name. The snapshot request it
  sends carries snapid 1.
- `sd_vdi_snapshot` creates the new head under the name stored in the inode
  just read, not under the caller's name argument.
- Several calls consult only the transport code and never look at
  `rsp->result`: `lock_vdi`, `unlock_vdi`, `do_vdi_create` and the inode
  read inside `sd_vdi_open`. Only `read_object` and `write_object` check
  both codes, and `find_vdi` returns `rsp->result` itself.
- The inode read in `sd_vdi_open` has no DIRECT flag. The read inside
  `vdi_read_inode` sets it.

## Model

| member | source | states |
|---|---|---|
| Proto.Field | lib/shared/vdi.c:296-299 | the name or tag field of the lookup buffer has exactly the field's width, and every byte past the string is NUL |
| Proto.FieldReadsBack | lib/shared/vdi.c:296-299 | reading the field back as a C string gives the original string, cut to at most width - 1 characters |
| Requests.ObjResult | lib/shared/vdi.c:254-261 | a transport error is returned before `rsp->result` is consulted; success comes back only when both the transport and the result are SUCCESS |
| Requests.WriteObjectReq | lib/shared/vdi.c:239-252 | the opcode is CREATE_AND_WRITE_OBJ exactly when `create`, and WRITE_OBJ otherwise; a flag is set exactly when the caller passed it, or it is CMD_WRITE, or it is COW with `cow_oid` ≠ 0, or it is DIRECT with `direct`; oid, cow_oid, offset and length are passed through |
| Requests.WriteObject | lib/shared/vdi.c:231-262 | one request is issued; the result is SUCCESS exactly when the transport code and `rsp->result` are both SUCCESS; a transport error is returned as it is, and otherwise `rsp->result` itself is returned |
| Requests.ReadObjectReq | lib/shared/vdi.c:271-276 | a READ_OBJ whose only possible flag is DIRECT, set exactly when `direct`, with the given oid, offset and length |
| Requests.ReadObject | lib/shared/vdi.c:264-286 | one request is issued; a transport error is returned as it is, and otherwise `rsp->result` itself, SUCCESS exactly when both are; the buffer holds what the reply carried |
| Requests.LookupBuffer | lib/shared/vdi.c:293-299 | the 512-byte lookup buffer is the zero-padded name field followed by the tag field; the tag field is all NUL when no tag is given |
| Requests.LookupBufferReadsBack | lib/shared/vdi.c:296-299 | a name and a tag that fit their fields can be read back out of the lookup buffer; a missing tag reads back as the empty string |
| Requests.FindVdiReq | lib/shared/vdi.c:301-303 | GET_VDI_INFO with flags {CMD_WRITE} and a length equal to the buffer's 512 bytes; it changes nothing on the cluster |
| Requests.FindVdi | lib/shared/vdi.c:288-313 | a transport error is returned as it is; otherwise `rsp->result` is returned, NO_TAG included; `*vid` is stored exactly when the result is SUCCESS and a `vid` pointer was given, and it then holds the reply's vdi_id |
| Requests.VdiReadInode | lib/shared/vdi.c:315-334 | a failed lookup stops after one request and returns its code; otherwise the second request reads offset 0 of the looked-up VDI's inode object with DIRECT, for the header size exactly when `onlyheader` and the full inode size otherwise; the inode is delivered exactly on success; nothing is written |
| Requests.NewVdiReq | lib/shared/vdi.c:212-219 | NEW_VDI with flags {CMD_WRITE}, the name as payload, and the given base id, size and store policy; snapid is 1 exactly when creating a snapshot |
| Requests.DoVdiCreate | lib/shared/vdi.c:204-229 | one NEW_VDI request; the result is the transport code; the new id is stored exactly on success and only when a `vdi_id` pointer was given |
| Requests.LockVdiReq | lib/shared/vdi.c:36-38 | LOCK_VDI with flags {CMD_WRITE}, keyed by the VDI name |
| Requests.ReleaseVdiReq | lib/shared/vdi.c:53-55 | RELEASE_VDI of lock type NORMAL with base_vdi_id equal to the bound vid |
| Requests.StorePolicyFor | lib/shared/vdi.c:416-418 | the store policy is 1 exactly when size > SD_OLD_MAX_VDI_SIZE, and 0 otherwise |
| Requests.SdVdiCreate | lib/shared/vdi.c:397-424 | when the size is too large, the size is 0, or the name is null or empty, the call returns INVALID_PARMS and issues no request; otherwise it issues exactly one NEW_VDI with base_vdi_id 0, snapid 0, the given size and the size-selected policy, and returns the transport code |
| Requests.TagWriteReq | lib/shared/vdi.c:378-380 | the tag write is a plain WRITE_OBJ with flags {CMD_WRITE}, so no COW and no DIRECT; it goes to the inode object at the tag offset, with length SD_MAX_VDI_TAG_LEN |
| Requests.SdVdiSnapshot | lib/shared/vdi.c:336-370 | a null or empty tag or name returns INVALID_PARMS with no request; otherwise the first request is the lookup of (name, tag); an existing tag returns INVALID_PARMS after that lookup alone, so nothing is written; any lookup code other than SUCCESS and NO_TAG is returned unchanged; after NO_TAG the call goes on with the live inode; only the fourth and fifth requests change the cluster |
| Requests.SnapshotOfLive | lib/shared/vdi.c:359-394 | after NO_TAG, the live inode is looked up with no tag and its header is read directly; the call stops after that one request exactly when the lookup fails, returning the lookup's code; a failed read returns its code; a non-zero store policy returns INVALID_PARMS before any write; otherwise the call branches and returns the branch's code |
| Requests.SnapshotBranch | lib/shared/vdi.c:378-394 | the tag write comes first, and a failed write stops the call with its code; then one NEW_VDI based on the inode's vdi_id, with snapid 1, the inode's size and name, and policy 0, whose transport code is returned with the tag write already issued; both requests change the cluster |
| Requests.SnapshotSteps | lib/shared/vdi.c:352-394 | the whole snapshot, numbered request by request: at most five requests; success needs all five; the live lookup is second and only after NO_TAG, and when the call stops there it returns that lookup's code; the header read is third; the tag write is fourth and only on a legacy-policy inode; the create is fifth, only after a successful tag write, and it decides the result |
| Requests.SdVdiClone | lib/shared/vdi.c:426-468 | a null or empty destination name, source tag or source name returns INVALID_PARMS with no request; otherwise the full inode of (srcname, srctag) is read, a failed lookup stops the call after that one request and a failed read after the second, each returning `vdi_read_inode`'s code unchanged with nothing created; otherwise a NEW_VDI based on the source's vdi_id, with snapid 0, the source's size and its store policy |
| Requests.SnapshotReadsOnlyItsReplies | lib/shared/vdi.c:352-394 | the snapshot consumes its replies in order: two scripts that agree on the replies to the requests it issued give the same outcome |
| Requests.CloneReadsOnlyItsReplies | lib/shared/vdi.c:451-461 | the same holds for the clone |
| Requests.CreateReadsOnlyItsReplies | lib/shared/vdi.c:401-423 | the same holds for the create, which needs no reply at all when it rejects its arguments |
| Requests.SnapshotBranchesFromTaggedInode | lib/shared/vdi.c:378-389 | in a snapshot that reaches its last step, the new head's base is the VDI whose inode object received the tag; it is a snapid-1, policy-0 VDI with the tagged inode's size and name |
| Handle.Vdi.constructor | lib/shared/vdi.c:63-73 | a new handle on the given cluster and name, with vid 0, not yet freed |
| Handle.Vdi.Lock | lib/shared/vdi.c:30-46 | sends one LOCK_VDI; returns the transport code; binds `vid` to the reply's vdi_id exactly on success and leaves it alone otherwise |
| Handle.Vdi.Unlock | lib/shared/vdi.c:48-61 | sends one RELEASE_VDI for the bound vid and returns the transport code |
| Handle.Vdi.Close | lib/shared/vdi.c:191-202 | sends one RELEASE_VDI (type NORMAL, base_vdi_id = vid); returns the unlock's code, which is 0 on success; the handle is freed exactly when the unlock succeeded |
| Handle.AllocRequest | lib/shared/vdi.c:134-155 | a failed eventfd gives no request and errno SYSTEM_ERROR; otherwise a fresh request with the caller's buffer (by reference), count, offset, direction and handle |
| Handle.QueueRequest | lib/shared/vdi.c:117-126 | the request is appended at the tail of its cluster's `request_list`, and the earlier entries are unchanged |
| Handle.Vdi.Read | lib/shared/vdi.c:157-172 | a failed eventfd returns SYSTEM_ERROR and enqueues nothing; otherwise exactly one new read request belonging to this handle, with {buf, count, offset}, is appended at the tail of the shared list, and the call returns the request's `ret` |
| Handle.Vdi.Write | lib/shared/vdi.c:174-189 | the same as the read, with the write direction |
| Handle.Vdi.Submit | lib/shared/vdi.c:159-171 | the body `sd_vdi_read` and `sd_vdi_write` share, to which both delegate: a failed eventfd returns SYSTEM_ERROR with the list unchanged; otherwise one fresh request of this handle in the given direction is appended at the tail, and the dispatcher's result is returned |
| Handle.SdVdiOpen | lib/shared/vdi.c:82-115 | a failed lock returns NULL with its code and sends nothing more; a failed inode read, or an inode that is a snapshot, sends a RELEASE_VDI for the bound vid and returns NULL, with the read's code or INVALID_PARMS; otherwise it returns a fresh handle, bound to the lock reply's vdi_id and holding the inode read (a full-size, non-DIRECT read at offset 0), that has sent exactly the lock and the read |

## Left out

- `sd_run_sdreq` and the network are defined outside this file. The model replaces them with the scripted responder `Script` (and `Cluster.RunSdReq`), so every reply is an input.
- The blocking mechanics are left out: `eventfd_xwrite`/`eventfd_xread`, the `request_lock` and per-handle rwlocks, and the dispatcher that drains `request_list` and sets `req->ret`. These are concurrency, not sequential behaviour.
  - The wait is modelled as a parameter (`completion`), the value the dispatcher stored in `ret`.
  - Because nothing drains it, the model's pending list keeps every request it was given.
- The result of `eventfd(0, 0)` is a parameter (`efd`), since it comes from the operating system.
- `vid_to_vdi_oid`, `vdi_is_snapshot`, the `sd_inode` byte layout and the header size constants are defined in headers that are not part of this model. They are `Layout` parameters and the inode's `snapshot` field. No injectivity of the oid transform and no field offsets are claimed.
- The `obj` and `vdi` arms of a request header are a C union. The model keeps them as separate fields, so it does not capture their aliasing.
- Memory management is left out: `xzalloc`/`xmalloc`/`free`/`close`, `free_request`, and the inode buffer of `sd_vdi_clone`. The only part kept is that `sd_vdi_close` skips `free_vdi` when the unlock fails (`Vdi.freed`).
- The `fprintf(stderr, ...)` diagnostics are output only.
- Payloads are modelled loosely. For LOCK_VDI, NEW_VDI and the tag write, the C code sends `data_length` bytes starting at a string pointer. The model's payload is the string itself, not the bytes that happen to follow it in memory.
- Handle.SdVdiOpen: when the open succeeds, `errno` is not modelled; the C code leaves it as it was. On an inode read that failed, the cached inode buffer is not modelled.
- Handle.SdVdiOpen: `name` is a non-null string. The C code would pass a null name on to the transport unchecked.
- Requests.VdiReadInode: on a failed read, the inode buffer's contents are not modelled. The value is only given on success.
- Names and tags are `seq<char>`, and one Dafny character stands for one C byte. A name whose UTF-8 encoding has multi-byte characters is cut by `pstrcpy` at width - 1 bytes, which is not what `Field` models.
- `size_t`/`off_t` arguments of read and write are plain integers. No arithmetic is done on them, so their width does not matter.
