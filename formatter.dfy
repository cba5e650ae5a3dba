/**
 * Symbol formatting of the JVMTI agent: the class-name normaliser
 * (`class_name_from_sig`), the display string of a method (`sig_string`) and
 * the line-number lookup (`get_line_number`).
 */
module Formatter {
  import opened Wrappers
  import opened Jvmti
  import AgentOptions

  const NUL: char := '\0'

  /** Capacity of the agent's ordinary name buffers. */
  const STRING_BUFFER_SIZE: nat := 2000

  /** What `sig_string` yields whenever a metadata query fails. */
  const ERROR_SIGNATURE: string := "<error writing signature>"

  predicate NoNul(s: seq<char>) {
    forall k :: 0 <= k < |s| ==> s[k] != NUL
  }

  /** The C string a buffer holds: the characters before its first NUL, or `None` when it has none. */
  function CString(buf: seq<char>): (r: Option<string>)
    ensures r.None? <==> NoNul(buf)
    ensures r.Some? ==> |r.value| < |buf| && buf[|r.value|] == NUL && r.value == buf[..|r.value|] && NoNul(r.value)
  {
    if buf == [] then None
    else if buf[0] == NUL then Some([])
    else match CString(buf[1..])
      case None => None
      case Some(t) => Some([buf[0]] + t)
  }

  /** A NUL at `m` with none before it ends the C string there. */
  lemma CStringAt(buf: seq<char>, m: nat)
    requires m < |buf| && buf[m] == NUL && NoNul(buf[..m])
    ensures CString(buf) == Some(buf[..m])
  {
  }

  // ---------------------------------------------------------------------------
  // class_name_from_sig

  function DotChar(c: char): char {
    if c == '/' then '.' else c
  }

  /** The character the clean-name loop stores for `c`: `/` becomes `.`, `;` becomes NUL. */
  function BufferChar(c: char): char {
    if c == '/' then '.' else if c == ';' then NUL else c
  }

  predicate StartsWithL(sig: string) {
    |sig| > 0 && sig[0] == 'L'
  }

  function Min(a: nat, b: nat): nat {
    if a <= b then a else b
  }

  /**
   * The dotted class name read from a signature body `src` (the signature
   * without its leading `L`): `/` turned into `.`, cut at the first `;`, and at
   * most `limit` characters long.
   */
  function CleanClassName(src: string, limit: nat): (r: string)
    ensures |r| <= limit && |r| <= |src|
    ensures forall k :: 0 <= k < |r| ==> src[k] != ';' && r[k] == DotChar(src[k])
    ensures |r| == limit || |r| == |src| || src[|r|] == ';'
  {
    if limit == 0 || src == [] || src[0] == ';' then []
    else [DotChar(src[0])] + CleanClassName(src[1..], limit - 1)
  }

  /** The contents of `dest` after `class_name_from_sig(dest, |buf|, sig)` when it held `buf` before. */
  function FilledBuffer(buf: seq<char>, sig: string, cleanClassNames: bool): (r: seq<char>)
    requires |buf| >= 1
    ensures |r| == |buf|
  {
    if cleanClassNames && StartsWithL(sig) then
      var src := sig[1..];
      var n := Min(|src|, |buf| - 1);
      seq(|buf|, k requires 0 <= k < |buf| => if k < n then BufferChar(src[k]) else if k == n then NUL else buf[k])
    else
      // strncpy(dest, sig, dest_size): copy at most dest_size characters, pad with NULs
      seq(|buf|, k requires 0 <= k < |buf| => if k < |sig| then sig[k] else NUL)
  }

  /**
   * The C string `class_name_from_sig` leaves in a buffer of `cap` characters;
   * `None` when the buffer is left without a terminating NUL.
   */
  function ClassNameAsWritten(sig: string, cap: nat, cleanClassNames: bool): Option<string>
    requires cap >= 1
  {
    if cleanClassNames && StartsWithL(sig) then Some(CleanClassName(sig[1..], cap - 1))
    else if |sig| < cap then Some(sig)
    else None
  }

  lemma FilledBufferCString(buf: seq<char>, sig: string, cleanClassNames: bool)
    requires |buf| >= 1 && NoNul(sig)
    ensures CString(FilledBuffer(buf, sig, cleanClassNames)) == ClassNameAsWritten(sig, |buf|, cleanClassNames)
  {
    var out := FilledBuffer(buf, sig, cleanClassNames);
    if cleanClassNames && StartsWithL(sig) {
      var src := sig[1..];
      var r := CleanClassName(src, |buf| - 1);
      var m := |r|;
      forall k | 0 <= k < m
        ensures out[k] == r[k] && out[k] != NUL
      {
        assert src[k] == sig[k + 1];
      }
      assert out[..m] == r;
      CStringAt(out, m);
    } else if |sig| < |buf| {
      assert out[..|sig|] == sig;
      CStringAt(out, |sig|);
    } else {
      assert NoNul(out);
    }
  }

  /**
   * `class_name_from_sig`: with `cleanClassNames` and a signature starting with
   * `L`, copies the signature body into `dest` turning `/` into `.` and `;` into
   * NUL, stopping after `dest.Length - 1` characters, and terminates it; otherwise
   * copies the signature with `strncpy`.
   */
  method ClassNameFromSig(dest: array<char>, sig: string, cleanClassNames: bool)
    requires dest.Length >= 1
    modifies dest
    ensures dest[..] == FilledBuffer(old(dest[..]), sig, cleanClassNames)
    ensures NoNul(sig) ==> CString(dest[..]) == ClassNameAsWritten(sig, dest.Length, cleanClassNames)
  {
    ghost var before := dest[..];
    if cleanClassNames && |sig| > 0 && sig[0] == 'L' {
      var src := sig[1..];
      var i := 0;
      while i < dest.Length - 1 && i < |src|
        invariant 0 <= i <= dest.Length - 1 && i <= |src|
        invariant forall k :: 0 <= k < i ==> dest[k] == BufferChar(src[k])
        invariant forall k :: i <= k < dest.Length ==> dest[k] == before[k]
      {
        var c := src[i];
        if c == '/' {
          c := '.';
        }
        if c == ';' {
          c := NUL;
        }
        dest[i] := c;
        i := i + 1;
      }
      dest[i] := NUL;
    } else {
      forall k | 0 <= k < dest.Length {
        dest[k] := if k < |sig| then sig[k] else NUL;
      }
    }
    assert dest[..] == FilledBuffer(before, sig, cleanClassNames);
    if NoNul(sig) {
      FilledBufferCString(before, sig, cleanClassNames);
    }
  }

  /**
   * Without clean class names, a signature that fills the whole buffer leaves it
   * unterminated: the later `%s` in `sig_string` reads past the buffer.
   */
  lemma UnterminatedClassName(buf: seq<char>, sig: string)
    requires |buf| >= 1 && NoNul(sig) && |sig| >= |buf|
    ensures CString(FilledBuffer(buf, sig, false)) == None
  {
    FilledBufferCString(buf, sig, false);
  }

  /**
   * The class name `sig_string` evidently means to print: what the buffer holds,
   * and for a signature too long for a plain copy, its first `cap - 1` characters.
   */
  function ClassName(sig: string, cap: nat, cleanClassNames: bool): (r: string)
    requires cap >= 1
    ensures |r| < cap
    ensures ClassNameAsWritten(sig, cap, cleanClassNames).Some? ==> r == ClassNameAsWritten(sig, cap, cleanClassNames).value
    ensures !(cleanClassNames && StartsWithL(sig)) ==> r == sig[..|r|] && (|r| == |sig| || |r| == cap - 1)
  {
    match ClassNameAsWritten(sig, cap, cleanClassNames)
    case Some(name) => name
    case None => sig[..cap - 1]
  }

  // ---------------------------------------------------------------------------
  // sig_string

  function DigitChar(d: nat): (c: char)
    requires d < 10
    ensures '0' <= c <= '9' && DigitValue(c) == d
  {
    ('0' as int + d) as char
  }

  function DigitValue(c: char): nat
    requires '0' <= c <= '9'
  {
    c as int - '0' as int
  }

  predicate AllDigits(s: string) {
    forall k :: 0 <= k < |s| ==> '0' <= s[k] <= '9'
  }

  /** Reading a string of decimal digits back as a number. */
  function ParseDigits(s: string): nat
    requires AllDigits(s)
  {
    if s == [] then 0 else 10 * ParseDigits(s[..|s| - 1]) + DigitValue(s[|s| - 1])
  }

  /** The decimal digits of `n`, with no leading zero. */
  function NatToString(n: nat): (r: string)
    ensures |r| > 0 && AllDigits(r)
    ensures r[0] == '0' <==> n == 0
    decreases n
  {
    if n < 10 then [DigitChar(n)] else NatToString(n / 10) + [DigitChar(n % 10)]
  }

  /** `%d` formatting: a minus sign exactly for negative values, then the digits. */
  function IntToString(i: int): (r: string)
    ensures |r| > 0 && (r[0] == '-' <==> i < 0)
    ensures i < 0 ==> |r| > 1 && AllDigits(r[1..])
    ensures i >= 0 ==> AllDigits(r)
  {
    if i < 0 then "-" + NatToString(-i) else NatToString(i)
  }

  /** The decimal digits read back as the number printed. */
  lemma {:induction false} NatToStringRoundTrip(n: nat)
    ensures ParseDigits(NatToString(n)) == n
    decreases n
  {
    var s := NatToString(n);
    if n >= 10 {
      NatToStringRoundTrip(n / 10);
      assert s[..|s| - 1] == NatToString(n / 10);
    }
  }

  /** `%d` read back: the sign, then the magnitude. */
  lemma IntToStringRoundTrip(i: int)
    ensures var r := IntToString(i);
      if i < 0 then ParseDigits(r[1..]) == -i else ParseDigits(r) == i
  {
    NatToStringRoundTrip(if i < 0 then -i else i);
    if i < 0 {
      assert IntToString(i)[1..] == NatToString(-i);
    }
  }

  /** The line `sig_string` prints: the first entry's line, or -1 for an empty table. */
  function SourceLine(table: seq<LineEntry>): int {
    if |table| > 0 then table[0].lineNumber else -1
  }

  /** The queries `sig_string` needs for `class::method` all succeed. */
  predicate MetadataAvailable(meta: MethodMeta) {
    && meta.methodName.Some?
    && meta.declaringClass.Some?
    && meta.declaringClass.value.signature.Some?
  }

  /** `class::method`, the part of the display string every option keeps. */
  function QualifiedName(meta: MethodMeta, opts: AgentOptions.Options): string
    requires MetadataAvailable(meta)
  {
    ClassName(meta.declaringClass.value.signature.value, STRING_BUFFER_SIZE, opts.cleanClassNames)
      + "::" + meta.methodName.value.name
  }

  /** `(file:line)`, when source positions are asked for and both source queries succeed. */
  function SourceInfo(cls: ClassMeta, lineTable: Option<seq<LineEntry>>, opts: AgentOptions.Options): string {
    if opts.printSourceLoc && cls.sourceFile.Some? && lineTable.Some? then
      "(" + cls.sourceFile.value + ":" + IntToString(SourceLine(lineTable.value)) + ")"
    else
      ""
  }

  /**
   * `sig_string`: `class::method`, then the method signature when
   * `printMethodSignatures` is set and known, then `(file:line)`; or the error
   * sentinel when the method name, declaring class or class signature is missing.
   */
  function SigString(meta: MethodMeta, opts: AgentOptions.Options): (r: string)
    ensures r == ERROR_SIGNATURE <==> !MetadataAvailable(meta)
    ensures MetadataAvailable(meta) ==>
      |QualifiedName(meta, opts)| <= |r| && r[..|QualifiedName(meta, opts)|] == QualifiedName(meta, opts)
  {
    if !MetadataAvailable(meta) then ERROR_SIGNATURE
    else
      var cls := meta.declaringClass.value;
      var className := ClassName(cls.signature.value, STRING_BUFFER_SIZE, opts.cleanClassNames);
      var methodSignature :=
        if opts.printMethodSignatures && meta.methodName.value.signature.Some?
        then meta.methodName.value.signature.value else "";
      var r := className + "::" + meta.methodName.value.name + methodSignature + SourceInfo(cls, meta.lineTable, opts);
      assert r[|className|] == ':';
      assert ERROR_SIGNATURE[..] == "<error writing signature>";
      assert forall k :: 0 <= k < |ERROR_SIGNATURE| ==> ERROR_SIGNATURE[k] != ':';
      r
  }

  /** Without `printMethodSignatures` the method signature never shows. */
  lemma SignatureOnlyWhenEnabled(meta: MethodMeta, opts: AgentOptions.Options, msig: Option<string>)
    requires meta.methodName.Some? && !opts.printMethodSignatures
    ensures SigString(meta, opts) == SigString(meta.(methodName := Some(meta.methodName.value.(signature := msig))), opts)
  {
  }

  /**
   * The source position shows only when `printSourceLoc` is set and both the
   * source file and the line table are known: otherwise the string is the same
   * as for a method with no source information at all.
   */
  lemma SourcePositionOnlyWhenKnown(meta: MethodMeta, opts: AgentOptions.Options)
    requires MetadataAvailable(meta)
    requires !opts.printSourceLoc || meta.declaringClass.value.sourceFile.None? || meta.lineTable.None?
    ensures SigString(meta, opts)
      == SigString(meta.(declaringClass := Some(meta.declaringClass.value.(sourceFile := None)), lineTable := None), opts)
  {
  }

  /** With `printMethodSignatures` set and the signature known, it follows `class::method`. */
  lemma SignatureShown(meta: MethodMeta, opts: AgentOptions.Options)
    requires MetadataAvailable(meta) && opts.printMethodSignatures && meta.methodName.value.signature.Some?
    ensures var head := QualifiedName(meta, opts) + meta.methodName.value.signature.value;
      var r := SigString(meta, opts); |head| <= |r| && r[..|head|] == head
  {
  }

  /** With `printSourceLoc` set and both source queries answered, `(file:line)` ends the string, the line being the first entry's. */
  lemma SourcePositionShown(meta: MethodMeta, opts: AgentOptions.Options)
    requires MetadataAvailable(meta) && opts.printSourceLoc
    requires meta.declaringClass.value.sourceFile.Some? && meta.lineTable.Some? && |meta.lineTable.value| > 0
    ensures var tail := "(" + meta.declaringClass.value.sourceFile.value + ":" + IntToString(meta.lineTable.value[0].lineNumber) + ")";
      var r := SigString(meta, opts); |tail| <= |r| && r[|r| - |tail|..] == tail
  {
  }

  /** An empty line table prints line -1. */
  lemma EmptyLineTable(meta: MethodMeta, opts: AgentOptions.Options)
    requires MetadataAvailable(meta) && opts.printSourceLoc
    requires meta.declaringClass.value.sourceFile.Some? && meta.lineTable == Some([])
    ensures var r := SigString(meta, opts); |r| >= 4 && r[|r| - 4..] == ":-1)"
  {
    assert IntToString(-1) == "-1";
  }

  // ---------------------------------------------------------------------------
  // get_line_number

  /** The first index at or after `from` whose entry starts after `loc`. */
  function FirstStartAfter(table: seq<LineEntry>, loc: int, from: nat): (r: Option<nat>)
    requires from <= |table|
    ensures r.Some? ==> (from <= r.value < |table| && table[r.value].startLocation > loc
                         && forall j :: from <= j < r.value ==> table[j].startLocation <= loc)
    ensures r.None? ==> forall j :: from <= j < |table| ==> table[j].startLocation <= loc
    decreases |table| - from
  {
    if from == |table| then None
    else if table[from].startLocation > loc then Some(from)
    else FirstStartAfter(table, loc, from + 1)
  }

  /** What `get_line_number` returns: the line of the entry before the first one starting after `loc`, else -1. */
  function LineNumberAsWritten(table: seq<LineEntry>, loc: int): (r: int)
    requires |table| == 0 || table[0].startLocation <= loc
    ensures (forall j :: 0 <= j < |table| ==> table[j].startLocation <= loc) ==> r == -1
    ensures forall k ::
      (0 < k < |table| && table[k].startLocation > loc && forall j :: 0 <= j < k ==> table[j].startLocation <= loc)
      ==> r == table[k - 1].lineNumber
  {
    match FirstStartAfter(table, loc, 0)
    case Some(idx) => table[idx - 1].lineNumber
    case None => -1
  }

  /**
   * `get_line_number`. When the very first entry already starts after `loc` the
   * source reads `table[-1]`; that input is excluded here.
   */
  method GetLineNumber(table: seq<LineEntry>, loc: int) returns (line: int)
    requires |table| == 0 || table[0].startLocation <= loc
    ensures line == LineNumberAsWritten(table, loc)
  {
    var i := 0;
    while i < |table|
      invariant 0 <= i <= |table|
      invariant forall j :: 0 <= j < i ==> table[j].startLocation <= loc
    {
      if table[i].startLocation > loc {
        return table[i - 1].lineNumber;
      }
      i := i + 1;
    }
    return -1;
  }

  /**
   * Entry `k` is the one before the first entry starting after `loc`, or the
   * last entry when none does; no entry up to `k` starts after `loc`.
   */
  predicate CoversLoc(table: seq<LineEntry>, loc: int, k: nat) {
    && k < |table|
    && (forall j :: 0 <= j <= k ==> table[j].startLocation <= loc)
    && (k + 1 == |table| || table[k + 1].startLocation > loc)
  }

  /**
   * The entry whose range `[start_k, start_k+1)` holds `loc`, the last range
   * being open-ended; `None` when `loc` precedes the table.
   */
  function LineIndexAt(table: seq<LineEntry>, loc: int): (r: Option<nat>)
    ensures r.None? <==> |table| == 0 || table[0].startLocation > loc
    ensures r.Some? ==> CoversLoc(table, loc, r.value)
    ensures r.None? ==> forall k: nat :: !CoversLoc(table, loc, k)
  {
    if |table| == 0 || table[0].startLocation > loc then None
    else match FirstStartAfter(table, loc, 0)
      case Some(k) => Some(k - 1)
      case None => Some(|table| - 1)
  }

  /** The line of the location `loc`, or -1 when the table has none. */
  function LineNumberAt(table: seq<LineEntry>, loc: int): (r: int)
    ensures (|table| == 0 || table[0].startLocation > loc) ==> r == -1
    ensures forall k: nat :: CoversLoc(table, loc, k) ==> r == table[k].lineNumber
  {
    match LineIndexAt(table, loc)
    case Some(idx) => table[idx].lineNumber
    case None => -1
  }

  /** Where `get_line_number` finds a later entry, it agrees with the intended lookup. */
  lemma LineNumberAtAgrees(table: seq<LineEntry>, loc: int)
    requires |table| == 0 || table[0].startLocation <= loc
    requires FirstStartAfter(table, loc, 0).Some?
    ensures LineNumberAsWritten(table, loc) == LineNumberAt(table, loc)
  {
  }

  /** A location past the last entry's start loses its line. */
  lemma LastRangeLosesLine()
    ensures LineNumberAsWritten([LineEntry(0, 7)], 3) == -1
    ensures LineNumberAt([LineEntry(0, 7)], 3) == 7
  {
    assert FirstStartAfter([LineEntry(0, 7)], 3, 1) == None;
  }
}
