/**
 * Vocabulary shared by the data-model objects: 16-bit identifiers, the
 * data-model status codes, resource values, and the facts about lists of
 * instance ids kept in strictly ascending order. Both the Time and the
 * Portfolio object store their instances in a singly linked list sorted by
 * instance id, search it with an early exit and splice it the same way; the
 * ordering arguments are made once here, over the sequence of ids.
 */
module Dm {

  /** anjay_iid_t, anjay_rid_t and anjay_riid_t are all 16-bit unsigned. */
  type Id16 = x: int | 0 <= x < 0x1_0000

  /** ANJAY_ID_INVALID: the sentinel that never names a real instance. */
  const ID_INVALID: Id16 := 0xFFFF

  /** Data-model error codes: the negated CoAP code, class * 32 + detail. */
  const ERR_NOT_FOUND: int := -132           // 4.04 Not Found
  const ERR_METHOD_NOT_ALLOWED: int := -133  // 4.05 Method Not Allowed
  const ERR_INTERNAL: int := -160            // 5.00 Internal Server Error

  datatype Option<+T> = None | Some(value: T)

  /** A value handed to the output context by a resource read. */
  datatype Value = IntValue(i: int) | StringValue(s: string)

  /** What a resource read handler produces: a value, or a nonzero status. */
  datatype ReadResult = Read(value: Value) | ReadError(code: int)

  /**
   * One call of anjay_get_string on the input context: the status it returns
   * (0 on success) and the characters it leaves in the caller's buffer.
   */
  datatype StringInput = StringInput(code: int, text: string)

  ghost predicate StrictlyAscending(s: seq<int>)
  {
    forall i, j :: 0 <= i < j < |s| ==> s[i] < s[j]
  }

  /**
   * The index of the first element strictly greater than x, or |s|: the
   * place where the splicing loops stop and insert.
   */
  function FirstGreater(s: seq<int>, x: int): (p: nat)
    ensures p <= |s|
    ensures forall k :: 0 <= k < p ==> s[k] <= x
    ensures p < |s| ==> s[p] > x
  {
    if s == [] || s[0] > x then 0 else 1 + FirstGreater(s[1..], x)
  }

  /** The index of the first element equal to x, or |s| when there is none. */
  function IndexOf(s: seq<int>, x: int): (k: nat)
    ensures k <= |s|
    ensures k < |s| ==> s[k] == x
    ensures forall j :: 0 <= j < k ==> s[j] != x
  {
    if s == [] || s[0] == x then 0 else 1 + IndexOf(s[1..], x)
  }

  /** s with x spliced in before the first strictly greater element. */
  function InsertSorted(s: seq<int>, x: int): seq<int>
  {
    s[..FirstGreater(s, x)] + [x] + s[FirstGreater(s, x)..]
  }

  /**
   * Splicing x in before the first greater element keeps a strictly
   * ascending list strictly ascending exactly when x was not there yet:
   * a duplicate lands right after its twin.
   */
  lemma InsertSortedAscending(s: seq<int>, x: int)
    requires StrictlyAscending(s)
    ensures StrictlyAscending(InsertSorted(s, x)) <==> x !in s
  {
    var p := FirstGreater(s, x);
    var t := InsertSorted(s, x);
    assert |t| == |s| + 1 && t[p] == x;
    assert forall k :: 0 <= k < p ==> t[k] == s[k];
    assert forall k :: p < k < |t| ==> t[k] == s[k - 1];
    if x in s {
      var k :| 0 <= k < |s| && s[k] == x;
      assert k < p;
      assert s[p - 1] == x;
      assert t[p - 1] == t[p];
    } else {
      forall i, j | 0 <= i < j < |t| ensures t[i] < t[j] {
        if j < p {
        } else if i < p && j == p {
          assert s[i] <= x && s[i] != x;
        } else if i < p {
          assert s[i] <= x < s[p] <= s[j - 1];
        } else if i == p {
          assert x < s[p] <= s[j - 1];
        }
      }
    }
  }

  /** Unlinking one element keeps the list strictly ascending. */
  lemma RemoveAscending(s: seq<int>, k: nat)
    requires StrictlyAscending(s) && k < |s|
    ensures StrictlyAscending(s[..k] + s[k + 1..])
  {
    var t := s[..k] + s[k + 1..];
    forall i, j | 0 <= i < j < |t| ensures t[i] < t[j] {
      var i' := if i < k then i else i + 1;
      var j' := if j < k then j else j + 1;
      assert t[i] == s[i'] && t[j] == s[j'];
    }
  }

  /** Splicing x in adds exactly x to the members. */
  lemma InsertSortedMembers(s: seq<int>, x: int)
    ensures forall j :: j in InsertSorted(s, x) <==> j in s || j == x
  {
    var p := FirstGreater(s, x);
    assert s == s[..p] + s[p..];
  }

  /** Unlinking the element at k of a strictly ascending list removes exactly its value. */
  lemma RemoveMembers(s: seq<int>, k: nat)
    requires StrictlyAscending(s) && k < |s|
    ensures forall j :: j in s[..k] + s[k + 1..] <==> j in s && j != s[k]
  {
    var t := s[..k] + s[k + 1..];
    forall m | 0 <= m < |t| ensures t[m] != s[k] {
      var m' := if m < k then m else m + 1;
      assert t[m] == s[m'];
    }
    forall j | j in s && j != s[k] ensures j in t {
      var m :| 0 <= m < |s| && s[m] == j;
      if m < k { assert t[m] == j; } else { assert t[m - 1] == j; }
    }
  }

  /** In a strictly ascending list an id occurs at most once. */
  lemma AscendingDistinct(s: seq<int>, i: nat, j: nat)
    requires StrictlyAscending(s) && i < |s| && j < |s| && i != j
    ensures s[i] != s[j]
  {
  }

  /** Once the walk meets an element greater than x, x cannot occur further on. */
  lemma AscendingPast(s: seq<int>, i: nat, x: int)
    requires StrictlyAscending(s) && i < |s| && s[i] > x
    ensures forall k :: i <= k < |s| ==> s[k] > x
  {
  }
}
