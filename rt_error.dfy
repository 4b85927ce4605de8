/**
 * Error codes of the rt object system (rtError.cpp): a 32-bit rtError carries an
 * error class in its high 16 bits and a code in its low 16 bits; rtStrError
 * dispatches on the class, and the built-in class maps each known code to the
 * text of its identifier.
 *
 * rtError.h is not part of this model: the numeric values of the classes and
 * codes below are taken as given there (built-in class 0, system-error class
 * 0x8000, codes 0 to 10), and every property proved here uses only that the
 * two classes differ and that the eleven codes are distinct and below 65536.
 */
module RtError {
  import opened Wrappers

  /** rtError: an unsigned 32-bit value. */
  type Error = bv32

  const RT_ERROR_CLASS_BUILTIN: Error := 0
  const RT_ERROR_CLASS_SYSERROR: Error := 0x8000

  const RT_OK: Error := 0
  const RT_FAIL: Error := 1
  const RT_ERROR_NOT_ENOUGH_ARGS: Error := 2
  const RT_ERROR_INVALID_ARG: Error := 3
  const RT_PROP_NOT_FOUND: Error := 4
  const RT_OBJECT_NOT_INITIALIZED: Error := 5
  const RT_PROPERTY_NOT_FOUND: Error := 6
  const RT_OBJECT_NO_LONGER_AVAILABLE: Error := 7
  const RT_RESOURCE_NOT_FOUND: Error := 8
  const RT_NO_CONNECTION: Error := 9
  const RT_TIMEOUT: Error := 10

  /** RT_ERROR_CLASS: bits 16 to 31. */
  function ErrorClass(e: Error): (k: Error)
    ensures k < 0x1_0000
  {
    (e >> 16) & 0xffff
  }

  /** RT_ERROR_CODE: bits 0 to 15. */
  function ErrorCode(e: Error): (c: Error)
    ensures c < 0x1_0000
  {
    e & 0xffff
  }

  /** An error from its class and code: the inverse of ErrorClass and ErrorCode. */
  function MakeError(klass: Error, code: Error): (e: Error)
    requires klass < 0x1_0000 && code < 0x1_0000
    ensures ErrorClass(e) == klass && ErrorCode(e) == code
  {
    (klass << 16) | code
  }

  /** Class and code together are the whole error: class * 65536 + code == e. */
  lemma ClassCodeDecompose(e: Error)
    ensures MakeError(ErrorClass(e), ErrorCode(e)) == e
    ensures ErrorClass(e) * 0x1_0000 + ErrorCode(e) == e
  {
  }

  /** What rtStrError returns: a null pointer, a fixed string, or the system's text for an errno value. */
  datatype ErrorText = Null | Text(s: string) | SystemText(errno: Error)

  /**
   * rtStrError_BuiltIn: the identifier of a known built-in code, "UNKNOWN" for any
   * other. Never null: every case yields "UNKNOWN" or an identifier spelt with the
   * RT_ prefix. This is the switch as written; BuiltInTable below lists the same
   * cases as data, and BuiltInNamesListed and UnknownExactlyOutsideTable prove the
   * two agree.
   */
  function StrErrorBuiltIn(code: Error): (r: string)
    ensures r == "UNKNOWN" || (|r| > 3 && r[..3] == "RT_")
  {
    if code == RT_OK then "RT_OK"
    else if code == RT_FAIL then "RT_FAIL"
    else if code == RT_ERROR_NOT_ENOUGH_ARGS then "RT_ERROR_NOT_ENOUGH_ARGS"
    else if code == RT_ERROR_INVALID_ARG then "RT_ERROR_INVALID_ARG"
    else if code == RT_PROP_NOT_FOUND then "RT_PROP_NOT_FOUND"
    else if code == RT_OBJECT_NOT_INITIALIZED then "RT_OBJECT_NOT_INITIALIZED"
    else if code == RT_PROPERTY_NOT_FOUND then "RT_PROPERTY_NOT_FOUND"
    else if code == RT_OBJECT_NO_LONGER_AVAILABLE then "RT_OBJECT_NO_LONGER_AVAILABLE"
    else if code == RT_RESOURCE_NOT_FOUND then "RT_RESOURCE_NOT_FOUND"
    else if code == RT_NO_CONNECTION then "RT_NO_CONNECTION"
    else if code == RT_TIMEOUT then "RT_TIMEOUT"
    else "UNKNOWN"
  }

  /**
   * rtStrError: the built-in class is looked up in the built-in table, the
   * system-error class yields the system's text for the code (strerror_r is not
   * modelled), and any other class yields a null pointer.
   */
  function StrError(e: Error): (r: ErrorText)
    ensures ErrorClass(e) != RT_ERROR_CLASS_BUILTIN && ErrorClass(e) != RT_ERROR_CLASS_SYSERROR <==> r == Null
    ensures ErrorClass(e) == RT_ERROR_CLASS_BUILTIN ==> r.Text?
    ensures ErrorClass(e) == RT_ERROR_CLASS_SYSERROR ==> r == SystemText(e & 0xffff)
  {
    var klass := ErrorClass(e);
    if klass == RT_ERROR_CLASS_BUILTIN then Text(StrErrorBuiltIn(ErrorCode(e)))
    else if klass == RT_ERROR_CLASS_SYSERROR then SystemText(ErrorCode(e))
    else Null
  }

  /**
   * The cases of rtStrError_BuiltIn as a table, in source order: the reference
   * the name-to-code inverse (BuiltInCodeOf) searches.
   */
  const BuiltInTable: seq<(Error, string)> := [
    (RT_OK, "RT_OK"),
    (RT_FAIL, "RT_FAIL"),
    (RT_ERROR_NOT_ENOUGH_ARGS, "RT_ERROR_NOT_ENOUGH_ARGS"),
    (RT_ERROR_INVALID_ARG, "RT_ERROR_INVALID_ARG"),
    (RT_PROP_NOT_FOUND, "RT_PROP_NOT_FOUND"),
    (RT_OBJECT_NOT_INITIALIZED, "RT_OBJECT_NOT_INITIALIZED"),
    (RT_PROPERTY_NOT_FOUND, "RT_PROPERTY_NOT_FOUND"),
    (RT_OBJECT_NO_LONGER_AVAILABLE, "RT_OBJECT_NO_LONGER_AVAILABLE"),
    (RT_RESOURCE_NOT_FOUND, "RT_RESOURCE_NOT_FOUND"),
    (RT_NO_CONNECTION, "RT_NO_CONNECTION"),
    (RT_TIMEOUT, "RT_TIMEOUT")
  ]

  /** True when `code` is one of the listed built-in codes. */
  predicate IsBuiltInCode(code: Error)
  {
    exists k :: 0 <= k < |BuiltInTable| && BuiltInTable[k].0 == code
  }

  /**
   * The first position at or after `from` whose name in the built-in table is
   * `name`, or |BuiltInTable| when there is none.
   */
  function NameIndex(name: string, from: nat): (k: nat)
    requires from <= |BuiltInTable|
    ensures from <= k <= |BuiltInTable|
    ensures k < |BuiltInTable| ==> BuiltInTable[k].1 == name
    ensures forall m :: from <= m < k ==> BuiltInTable[m].1 != name
    decreases |BuiltInTable| - from
  {
    if from == |BuiltInTable| then from
    else if BuiltInTable[from].1 == name then from
    else NameIndex(name, from + 1)
  }

  /** The code a built-in name stands for: the inverse of StrErrorBuiltIn on the listed codes. */
  function BuiltInCodeOf(name: string): Option<Error>
  {
    var k := NameIndex(name, 0);
    if k < |BuiltInTable| then Some(BuiltInTable[k].0) else None
  }

  /** Every listed code is named by its own identifier. */
  lemma BuiltInNamesListed(k: nat)
    requires k < |BuiltInTable|
    ensures StrErrorBuiltIn(BuiltInTable[k].0) == BuiltInTable[k].1
  {
    if k == 0 {
    } else if k == 1 {
    } else if k == 2 {
    } else if k == 3 {
    } else if k == 4 {
    } else if k == 5 {
    } else if k == 6 {
    } else if k == 7 {
    } else if k == 8 {
    } else if k == 9 {
    } else {
      assert k == 10;
    }
  }

  /** Any code outside the table is "UNKNOWN"; so rtStrError_BuiltIn never returns null. */
  lemma UnknownExactlyOutsideTable(code: Error)
    ensures StrErrorBuiltIn(code) == "UNKNOWN" <==> !IsBuiltInCode(code)
  {
    if IsBuiltInCode(code) {
      var k :| 0 <= k < |BuiltInTable| && BuiltInTable[k].0 == code;
      BuiltInNamesListed(k);
      assert StrErrorBuiltIn(code)[0] == 'R' != "UNKNOWN"[0];
    } else {
      assert BuiltInTable[0].0 != code && BuiltInTable[1].0 != code && BuiltInTable[2].0 != code;
      assert BuiltInTable[3].0 != code && BuiltInTable[4].0 != code && BuiltInTable[5].0 != code;
      assert BuiltInTable[6].0 != code && BuiltInTable[7].0 != code && BuiltInTable[8].0 != code;
      assert BuiltInTable[9].0 != code && BuiltInTable[10].0 != code;
    }
  }

  /** The names in the built-in table are pairwise distinct. */
  lemma BuiltInNamesDistinct(a: nat, b: nat)
    requires a < b < |BuiltInTable|
    ensures BuiltInTable[a].1 != BuiltInTable[b].1
  {
    var x, y := BuiltInTable[a].1, BuiltInTable[b].1;
    if |x| == |y| {
      assert {a, b} == {6, 8};
      assert x[3] != y[3];
    }
  }

  /** A listed code's name maps back to that code. */
  lemma BuiltInNameToCode(k: nat)
    requires k < |BuiltInTable|
    ensures BuiltInCodeOf(BuiltInTable[k].1) == Some(BuiltInTable[k].0)
  {
    var i := NameIndex(BuiltInTable[k].1, 0);
    if i < k {
      BuiltInNamesDistinct(i, k);
    }
  }

  /** A known name maps to a code whose name it is. */
  lemma BuiltInCodeToName(name: string)
    requires BuiltInCodeOf(name).Some?
    ensures StrErrorBuiltIn(BuiltInCodeOf(name).value) == name
  {
    BuiltInNamesListed(NameIndex(name, 0));
  }

  /** For the built-in class, rtStrError depends only on the low 16 bits. */
  lemma BuiltInUsesLowBits(e1: Error, e2: Error)
    requires ErrorClass(e1) == RT_ERROR_CLASS_BUILTIN && ErrorClass(e2) == RT_ERROR_CLASS_BUILTIN
    requires e1 & 0xffff == e2 & 0xffff
    ensures StrError(e1) == StrError(e2) == Text(StrErrorBuiltIn(e1 & 0xffff))
  {
  }
}
