/** Shared vocabulary of the streamer model: optional and failing results, the
    exceptions the Java code can raise, BSON timestamps and the few string tests
    the source relies on. */
module Base {

  datatype Option<+T> = None | Some(value: T)

  /** A property of every element survives concatenation. */
  lemma AllAppend<T>(a: seq<T>, b: seq<T>, p: T -> bool)
    requires forall i :: 0 <= i < |a| ==> p(a[i])
    requires forall i :: 0 <= i < |b| ==> p(b[i])
    ensures forall i :: 0 <= i < |a + b| ==> p((a + b)[i])
  {
    forall i | 0 <= i < |a + b| ensures p((a + b)[i]) {
      if i < |a| {
        assert (a + b)[i] == a[i];
      } else {
        assert (a + b)[i] == b[i - |a|];
      }
    }
  }

  /** Concatenation regrouped. */
  lemma AppendAssoc<T>(a: seq<T>, b: seq<T>, c: seq<T>)
    ensures a + b + c == a + (b + c)
  {
  }

  /** A Java call either returns a value or throws one of the exceptions below. */
  datatype Result<+T> = Ok(value: T) | Err(fault: Fault)

  /** The exceptions that matter to the core's control flow. */
  datatype Fault =
    | MongoQuery(message: string)     // com.mongodb.MongoQueryException
    | IllegalState(message: string)   // java.lang.IllegalStateException
    | NullPointer                     // java.lang.NullPointerException
    | IndexOutOfBounds                // java.lang.ArrayIndexOutOfBoundsException
    | Other(message: string)          // any other exception raised by a collaborator

  type UInt32 = x: int | 0 <= x < 0x1_0000_0000

  const Int64Min: int := -0x8000_0000_0000_0000
  const Int64Max: int := 0x7FFF_FFFF_FFFF_FFFF

  /** A Java `long`. */
  type Int64 = x: int | Int64Min <= x <= Int64Max

  /** Two's-complement wrap-around of a mathematical integer into a Java `long`. */
  function Wrap64(x: int): (r: Int64)
    ensures Int64Min <= x <= Int64Max ==> r == x
    ensures (r - x) % 0x1_0000_0000_0000_0000 == 0
  {
    (x - Int64Min) % 0x1_0000_0000_0000_0000 + Int64Min
  }

  /** A BSON timestamp: seconds since the epoch and an ordinal within that second,
      both unsigned 32-bit quantities. */
  datatype Timestamp = Timestamp(time: UInt32, inc: UInt32)

  /** Strict order of BSON timestamps: by seconds, then by ordinal. */
  predicate Before(a: Timestamp, b: Timestamp)
  {
    a.time < b.time || (a.time == b.time && a.inc < b.inc)
  }

  /** `a.compareTo(b) <= 0` */
  predicate NotAfter(a: Timestamp, b: Timestamp)
  {
    Before(a, b) || a == b
  }

  /** `BsonTimestamp.getTime()`: the seconds field read back as a signed Java `int`. */
  function SignedTime(t: Timestamp): (r: int)
    ensures -0x8000_0000 <= r < 0x8000_0000
    ensures r % 0x1_0000_0000 == t.time % 0x1_0000_0000
    ensures t.time < 0x8000_0000 ==> r == t.time
  {
    if t.time < 0x8000_0000 then t.time else t.time - 0x1_0000_0000
  }

  /** `s.startsWith(prefix)` */
  predicate StartsWith(s: string, prefix: string)
  {
    |prefix| <= |s| && s[..|prefix|] == prefix
  }

  /** `s.contains(part)` */
  predicate Contains(s: string, part: string)
  {
    exists i :: 0 <= i <= |s| && StartsWith(s[i..], part)
  }

  /** A BSON value, as far as the core inspects one. */
  datatype Value = Null | Str(s: string) | Int(n: int) | Stamp(ts: Timestamp)

  /** A source document, keyed by field name. */
  type Document = map<string, Value>

  /** `doc.get(key)`: a missing key reads as null. */
  function Get(doc: Document, key: string): (v: Value)
    ensures key !in doc ==> v == Null
  {
    if key in doc then doc[key] else Null
  }
}
