/**
 * The part of the sheepdog wire protocol that the VDI client speaks:
 * result codes, opcodes, request flags, the request header it hands to the
 * transport, the inode header it reads back, and the transport itself as a
 * scripted responder.
 *
 * Constants that live in headers outside this model (inode sizes, the
 * offset of the tag inside an inode, the size limits and the
 * VDI-id-to-object-id transform) are not given values here: every
 * operation takes them as a `Layout`.
 */
module Proto {

  type u8 = x: int | 0 <= x < 0x100
  type u32 = x: int | 0 <= x < 0x1_0000_0000
  type u64 = x: int | 0 <= x < 0x1_0000_0000_0000_0000

  datatype Option<+T> = None | Some(value: T)

  /** Result codes travel as plain integers: the transport may hand back any code. */
  type Code = int

  const ResSuccess: Code := 0x00
  const ResInvalidParms: Code := 0x05
  const ResSystemError: Code := 0x06
  const ResNoTag: Code := 0x0E

  /** Width of the name field and of the tag field of a VDI lookup. */
  const MaxVdiLen: u32 := 256
  const MaxVdiTagLen: u32 := 256

  /** The lock type of a release request; a zeroed header carries it too. */
  const LockTypeNormal: u32 := 0

  datatype Opcode =
    | CreateAndWriteObj
    | ReadObj
    | WriteObj
    | NewVdi
    | LockVdi
    | ReleaseVdi
    | GetVdiInfo

  /** Single-bit request flags; OR-ing flags into a header is set union. */
  datatype Flag = CmdWrite | CmdCow | CmdDirect

  /** The `vdi` arm of a request header. */
  datatype VdiFields = VdiFields(baseVdiId: u32, snapid: u32, vdiSize: u64, storePolicy: u8, lockType: u32)

  const NoVdiFields := VdiFields(0, 0, 0, 0, 0)

  /**
   * One request handed to the transport: the header fields the client sets
   * and the bytes it passes as the data buffer (empty for a read, whose
   * buffer is filled by the reply).
   */
  datatype SdReq = SdReq(
    opcode: Opcode,
    flags: set<Flag>,
    dataLength: u32,
    oid: u64,
    cowOid: u64,
    offset: u64,
    vdi: VdiFields,
    data: seq<char>)

  /** True of the requests that write objects or create VDIs (lock requests are not among them). */
  predicate Mutates(h: SdReq)
  {
    h.opcode == CreateAndWriteObj || h.opcode == WriteObj || h.opcode == NewVdi
  }

  /** The inode header fields the client reads; `snapshot` is what `vdi_is_snapshot` says of it. */
  datatype Inode = Inode(vdiId: u32, vdiSize: u64, storePolicy: u8, name: string, snapshot: bool)

  /**
   * What one transport round trip gives back: the transport's own code,
   * the response header's result and VDI id, and the inode the data buffer
   * receives when the request was an inode read.
   */
  datatype Response = Response(transport: Code, result: Code, vdiId: u32, inode: Inode)

  /** The scripted transport: the k-th request of a call receives `script(k)`. */
  type Script = nat -> Response

  /** The script as seen by a step that starts after `n` requests were issued. */
  function Shift(script: Script, n: nat): (later: Script)
    ensures forall k: nat :: later(k) == script(n + k)
  {
    (k: nat) => script(n + k)
  }

  /** Header constants that this model leaves as parameters. */
  datatype Layout = Layout(
    vdiOid: u32 -> u64,
    inodeSize: u32,
    inodeHeaderSize: u32,
    tagOffset: u64,
    maxVdiSize: u64,
    oldMaxVdiSize: u64)

  /** A C `char *` argument: `None` is the null pointer. */
  type CStr = Option<string>

  /** A null pointer, or a string whose first character is the terminator. */
  predicate NullOrEmpty(s: CStr)
  {
    s.None? || |s.value| == 0 || s.value[0] == '\0'
  }

  /** The C string a character buffer holds: everything before its first NUL. */
  function CString(s: seq<char>): (r: seq<char>)
    ensures |r| <= |s| && r == s[..|r|]
    ensures '\0' !in r
    ensures |r| < |s| ==> s[|r|] == '\0'
  {
    if s == [] || s[0] == '\0' then [] else [s[0]] + CString(s[1..])
  }

  function Zeros(n: nat): (z: seq<char>)
    ensures |z| == n
    ensures forall i :: 0 <= i < n ==> z[i] == '\0'
  {
    seq(n, _ => '\0')
  }

  /**
   * A fixed-width field as `pstrcpy` leaves it in a zeroed buffer: the
   * string's characters, cut to leave room for one NUL, then NULs up to the
   * full width.
   */
  function Field(s: seq<char>, width: nat): (f: seq<char>)
    requires width >= 1
    ensures |f| == width
    ensures forall i :: |CString(s)| <= i < width ==> f[i] == '\0'
  {
    var t := CString(s);
    var k := if |t| < width then |t| else width - 1;
    t[..k] + Zeros(width - k)
  }

  /** A NUL-free prefix followed by a NUL reads back as that prefix. */
  lemma {:induction false} CStringTerminated(t: seq<char>, z: seq<char>)
    requires '\0' !in t
    requires |z| >= 1 && z[0] == '\0'
    ensures CString(t + z) == t
  {
    if t != [] {
      assert (t + z)[1..] == t[1..] + z;
      CStringTerminated(t[1..], z);
    }
  }

  lemma NulFreePrefix(t: seq<char>, k: nat)
    requires '\0' !in t && k <= |t|
    ensures '\0' !in t[..k]
  {
    forall i | 0 <= i < k ensures t[..k][i] != '\0' {
      assert t[..k][i] == t[i];
    }
  }

  /** The field reads back as the string, cut to at most width - 1 characters. */
  lemma FieldReadsBack(s: seq<char>, width: nat)
    requires width >= 1
    ensures |CString(s)| < width ==> CString(Field(s, width)) == CString(s)
    ensures |CString(s)| >= width ==> CString(Field(s, width)) == CString(s)[..width - 1]
  {
    var t := CString(s);
    var k := if |t| < width then |t| else width - 1;
    var z := Zeros(width - k);
    assert Field(s, width) == t[..k] + z;
    NulFreePrefix(t, k);
    assert z[0] == '\0';
    CStringTerminated(t[..k], z);
    if |t| < width {
      assert t[..k] == t;
    }
  }
}
