/**
 * The inline-range unfolder of the JVMTI agent (`generate_unfolded_entries`):
 * it cuts a compiled code blob into sub-ranges at every breakpoint where the
 * top of the inline stack changes, and names each sub-range.
 */
module Unfolder {
  import opened Jvmti
  import opened PerfMap
  import Formatter
  import AgentOptions

  /** `PCStackInfo`: a program counter and its inline stack, top (innermost) frame first. */
  datatype PCStackInfo = PCStackInfo(pc: nat, methods: seq<MethodId>)

  /** The `compile_info` of a load: an inline record, or a record of any other kind. */
  datatype CompileInfo = NoInlineInfo | InlineRecord(pcinfo: seq<PCStackInfo>)

  /** Every breakpoint has at least one frame, so `methods[0]` exists. */
  predicate FramesPresent(pcinfo: seq<PCStackInfo>) {
    forall i :: 0 <= i < |pcinfo| ==> |pcinfo[i].methods| > 0
  }

  predicate WellFormedInfo(info: CompileInfo) {
    info.InlineRecord? ==> FramesPresent(info.pcinfo)
  }

  function Top(pcinfo: seq<PCStackInfo>, i: nat): MethodId
    requires FramesPresent(pcinfo) && i < |pcinfo|
  {
    pcinfo[i].methods[0]
  }

  /** The method current when breakpoint `i` is reached: the root, then the previous breakpoint's top. */
  function CurrentBefore(pcinfo: seq<PCStackInfo>, root: MethodId, i: nat): MethodId
    requires FramesPresent(pcinfo) && i <= |pcinfo|
  {
    if i == 0 then root else Top(pcinfo, i - 1)
  }

  /** The top of the stack changes at breakpoint `i`. */
  predicate IsChange(pcinfo: seq<PCStackInfo>, root: MethodId, i: nat)
    requires FramesPresent(pcinfo) && i < |pcinfo|
  {
    Top(pcinfo, i) != CurrentBefore(pcinfo, root, i)
  }

  /** The indices of the changes among the first `n` breakpoints. */
  function Changes(pcinfo: seq<PCStackInfo>, root: MethodId, n: nat): (c: seq<nat>)
    requires FramesPresent(pcinfo) && n <= |pcinfo|
    ensures forall j :: 0 <= j < |c| ==> c[j] < n
  {
    if n == 0 then []
    else Changes(pcinfo, root, n - 1) + (if IsChange(pcinfo, root, n - 1) then [n - 1] else [])
  }

  predicate StrictlyIncreasing(c: seq<nat>) {
    forall j, k :: 0 <= j < k < |c| ==> c[j] < c[k]
  }

  /** `Changes` lists exactly the change indices, in ascending order. */
  lemma {:induction false} ChangesSpec(pcinfo: seq<PCStackInfo>, root: MethodId, n: nat)
    requires FramesPresent(pcinfo) && n <= |pcinfo|
    ensures StrictlyIncreasing(Changes(pcinfo, root, n))
    ensures forall i :: 0 <= i < n ==> (IsChange(pcinfo, root, i) <==> i in Changes(pcinfo, root, n))
  {
    if n > 0 {
      ChangesSpec(pcinfo, root, n - 1);
    }
  }

  // ---------------------------------------------------------------------------
  // Names

  /**
   * The names `sig_string` gives methods under the agent's options. The
   * unfolder is stated for any naming `sig`; `SigNames` is the agent's own.
   */
  function SigNames(oracle: MetadataOracle, opts: AgentOptions.Options): MethodId -> string {
    (m: MethodId) => Formatter.SigString(oracle(m), opts)
  }

  /** The full inline chain, outermost frame first, joined by `->`. */
  function ChainName(sig: MethodId -> string, frames: seq<MethodId>): string
    decreases |frames|
  {
    if |frames| == 0 then ""
    else if |frames| == 1 then sig(frames[0])
    else ChainName(sig, frames[1..]) + "->" + sig(frames[0])
  }

  /** Adding an outer frame puts its name in front of the chain. */
  lemma {:induction false} ChainOutermostFirst(sig: MethodId -> string, frames: seq<MethodId>, outer: MethodId)
    requires |frames| >= 1
    ensures ChainName(sig, frames + [outer]) == sig(outer) + "->" + ChainName(sig, frames)
    decreases |frames|
  {
    if |frames| > 1 {
      assert (frames + [outer])[1..] == frames[1..] + [outer];
      ChainOutermostFirst(sig, frames[1..], outer);
    } else {
      assert (frames + [outer])[1..] == [outer];
    }
  }

  /** The chain starts with the outermost frame's name and ends with the top frame's. */
  lemma {:induction false} ChainEnds(sig: MethodId -> string, frames: seq<MethodId>)
    requires |frames| > 0
    ensures var r := ChainName(sig, frames);
      var outer := sig(frames[|frames| - 1]);
      var top := sig(frames[0]);
      && |outer| <= |r| && r[..|outer|] == outer
      && |top| <= |r| && r[|r| - |top|..] == top
    decreases |frames|
  {
    if |frames| > 1 {
      ChainEnds(sig, frames[1..]);
      assert frames[1..][|frames[1..]| - 1] == frames[|frames| - 1];
    }
  }

  /** The `unfold_all` loop of `write_unfolded_entry`, from the outermost frame down to the top. */
  method FullChainName(sig: MethodId -> string, frames: seq<MethodId>) returns (fullName: string)
    ensures fullName == ChainName(sig, frames)
  {
    fullName := "";
    var i := |frames| - 1;
    while i >= 0
      invariant -1 <= i < |frames|
      invariant fullName == if i == |frames| - 1 then ""
                            else ChainName(sig, frames[i + 1..]) + (if i >= 0 then "->" else "")
    {
      fullName := fullName + sig(frames[i]);
      assert frames[i..][1..] == frames[i + 1..];
      if i != 0 {
        fullName := fullName + "->";
      }
      i := i - 1;
    }
    assert frames[0..] == frames;
  }

  /** `generate_unfolded_entry`: the inlined method alone, or `<method> in <root>`. */
  function InlinedName(sig: MethodId -> string, opts: AgentOptions.Options, m: MethodId, rootName: string): (r: string)
    ensures opts.unfoldSimple ==> r == sig(m)
    ensures !opts.unfoldSimple ==>
      |r| == |sig(m)| + 4 + |rootName| && r[..|sig(m)|] == sig(m) && r[|r| - |rootName|..] == rootName
    ensures !opts.unfoldSimple ==> r[|sig(m)|..|sig(m)| + 4] == " in "
  {
    if opts.unfoldSimple then sig(m) else sig(m) + " in " + rootName
  }

  /** The name `write_unfolded_entry` gives a range, from the stack `info`. */
  function RangeName(sig: MethodId -> string, opts: AgentOptions.Options, info: PCStackInfo, root: MethodId, rootName: string): (r: string)
    requires |info.methods| > 0
    ensures var top := sig(info.methods[0]);
      if opts.unfoldAll then |top| <= |r| && r[|r| - |top|..] == top
      else if info.methods[0] == root then r == rootName
      else |top| <= |r| && r[..|top|] == top
    ensures opts.unfoldAll ==> r == ChainName(sig, info.methods)
    ensures !opts.unfoldAll && info.methods[0] != root ==> r == InlinedName(sig, opts, info.methods[0], rootName)
  {
    if opts.unfoldAll then ChainEnds(sig, info.methods); ChainName(sig, info.methods)
    else if info.methods[0] != root then InlinedName(sig, opts, info.methods[0], rootName)
    else rootName
  }

  /** `write_unfolded_entry`: one entry for `[startAddr, endAddr)` named from the stack `info`. */
  method WriteUnfoldedEntry(sig: MethodId -> string, opts: AgentOptions.Options, info: PCStackInfo,
                            root: MethodId, rootName: string, startAddr: nat, endAddr: nat) returns (e: MapEntry)
    requires |info.methods| > 0
    ensures e == MapEntry(startAddr, endAddr - startAddr, RangeName(sig, opts, info, root, rootName))
  {
    var name: string;
    if opts.unfoldAll {
      name := FullChainName(sig, info.methods);
    } else {
      var curMethod := info.methods[0];
      if curMethod != root {
        name := InlinedName(sig, opts, curMethod, rootName);
      } else {
        name := rootName;
      }
    }
    e := MapEntry(startAddr, endAddr - startAddr, name);
  }

  // ---------------------------------------------------------------------------
  // The entries, specified

  /** Where range `j` starts: the blob's start, then the breakpoint of the previous change. */
  function RangeStart(pcinfo: seq<PCStackInfo>, codeAddr: nat, c: seq<nat>, j: nat): nat
    requires j <= |c| && forall k :: 0 <= k < |c| ==> c[k] < |pcinfo|
  {
    if j == 0 then codeAddr else pcinfo[c[j - 1]].pc
  }

  /** The name of the range closed at breakpoint `idx`. */
  function ClosingName(sig: MethodId -> string, opts: AgentOptions.Options, pcinfo: seq<PCStackInfo>, root: MethodId, idx: nat): string
    requires FramesPresent(pcinfo) && idx < |pcinfo|
  {
    if idx > 0 then RangeName(sig, opts, pcinfo[idx - 1], root, sig(root))
    else sig(root)
  }

  /** The entry for the range closed by the `j`-th change in `c`. */
  function ClosedEntry(sig: MethodId -> string, opts: AgentOptions.Options, pcinfo: seq<PCStackInfo>,
                       root: MethodId, codeAddr: nat, c: seq<nat>, j: nat): MapEntry
    requires FramesPresent(pcinfo) && j < |c| && forall k :: 0 <= k < |c| ==> c[k] < |pcinfo|
  {
    var start := RangeStart(pcinfo, codeAddr, c, j);
    MapEntry(start, pcinfo[c[j]].pc - start, ClosingName(sig, opts, pcinfo, root, c[j]))
  }

  /** One entry per change in `c`, each ending at its change's breakpoint. */
  function ClosedEntries(sig: MethodId -> string, opts: AgentOptions.Options, pcinfo: seq<PCStackInfo>,
                         root: MethodId, codeAddr: nat, c: seq<nat>): seq<MapEntry>
    requires FramesPresent(pcinfo) && forall k :: 0 <= k < |c| ==> c[k] < |pcinfo|
  {
    seq(|c|, j requires 0 <= j < |c| => ClosedEntry(sig, opts, pcinfo, root, codeAddr, c, j))
  }

  /** Entry `j` of `ClosedEntries` is the range closed by the `j`-th change. */
  lemma ClosedEntriesAt(sig: MethodId -> string, opts: AgentOptions.Options, pcinfo: seq<PCStackInfo>,
                        root: MethodId, codeAddr: nat, c: seq<nat>)
    requires FramesPresent(pcinfo) && forall k :: 0 <= k < |c| ==> c[k] < |pcinfo|
    ensures var e := ClosedEntries(sig, opts, pcinfo, root, codeAddr, c);
      |e| == |c| && forall j :: 0 <= j < |c| ==> e[j] == ClosedEntry(sig, opts, pcinfo, root, codeAddr, c, j)
  {
  }

  /** The range after the last change, when it is not empty. */
  function TailEntries(sig: MethodId -> string, opts: AgentOptions.Options, pcinfo: seq<PCStackInfo>,
                       root: MethodId, codeSize: nat, codeAddr: nat, c: seq<nat>): seq<MapEntry>
    requires FramesPresent(pcinfo) && forall k :: 0 <= k < |c| ==> c[k] < |pcinfo|
  {
    var start := RangeStart(pcinfo, codeAddr, c, |c|);
    if start == codeAddr + codeSize then []
    else
      var name := if |pcinfo| > 0 then RangeName(sig, opts, pcinfo[|pcinfo| - 1], root, sig(root))
                  else sig(root);
      [MapEntry(start, codeAddr + codeSize - start, name)]
  }

  /** The entries written for one compiled blob. */
  function UnfoldedEntries(sig: MethodId -> string, opts: AgentOptions.Options, root: MethodId,
                           codeSize: nat, codeAddr: nat, info: CompileInfo): seq<MapEntry>
    requires WellFormedInfo(info)
  {
    match info
    case NoInlineInfo => [MapEntry(codeAddr, codeSize, sig(root))]
    case InlineRecord(pcinfo) =>
      var c := Changes(pcinfo, root, |pcinfo|);
      ClosedEntries(sig, opts, pcinfo, root, codeAddr, c) + TailEntries(sig, opts, pcinfo, root, codeSize, codeAddr, c)
  }

  lemma ClosedEntriesSnoc(sig: MethodId -> string, opts: AgentOptions.Options, pcinfo: seq<PCStackInfo>,
                          root: MethodId, codeAddr: nat, c: seq<nat>, i: nat)
    requires FramesPresent(pcinfo) && i < |pcinfo| && forall k :: 0 <= k < |c| ==> c[k] < |pcinfo|
    ensures ClosedEntries(sig, opts, pcinfo, root, codeAddr, c + [i])
         == ClosedEntries(sig, opts, pcinfo, root, codeAddr, c)
            + [MapEntry(RangeStart(pcinfo, codeAddr, c, |c|), pcinfo[i].pc - RangeStart(pcinfo, codeAddr, c, |c|),
                        ClosingName(sig, opts, pcinfo, root, i))]
  {
    var c' := c + [i];
    var lhs := ClosedEntries(sig, opts, pcinfo, root, codeAddr, c');
    var rhs := ClosedEntries(sig, opts, pcinfo, root, codeAddr, c)
               + [MapEntry(RangeStart(pcinfo, codeAddr, c, |c|), pcinfo[i].pc - RangeStart(pcinfo, codeAddr, c, |c|),
                           ClosingName(sig, opts, pcinfo, root, i))];
    forall j | 0 <= j < |c'|
      ensures lhs[j] == rhs[j]
    {
      assert RangeStart(pcinfo, codeAddr, c', j) == RangeStart(pcinfo, codeAddr, c, j);
      if j < |c| {
        assert lhs[j] == ClosedEntry(sig, opts, pcinfo, root, codeAddr, c, j);
      }
    }
  }

  /** One breakpoint of the scan: a change adds one closed entry and moves the start. */
  lemma ScanStep(sig: MethodId -> string, opts: AgentOptions.Options, pcinfo: seq<PCStackInfo>,
                 root: MethodId, codeAddr: nat, i: nat)
    requires FramesPresent(pcinfo) && i < |pcinfo|
    ensures var c := Changes(pcinfo, root, i);
      var c' := Changes(pcinfo, root, i + 1);
      if IsChange(pcinfo, root, i) then
        && ClosedEntries(sig, opts, pcinfo, root, codeAddr, c')
           == ClosedEntries(sig, opts, pcinfo, root, codeAddr, c)
              + [MapEntry(RangeStart(pcinfo, codeAddr, c, |c|), pcinfo[i].pc - RangeStart(pcinfo, codeAddr, c, |c|),
                          ClosingName(sig, opts, pcinfo, root, i))]
        && RangeStart(pcinfo, codeAddr, c', |c'|) == pcinfo[i].pc
      else c' == c
  {
    if IsChange(pcinfo, root, i) {
      ClosedEntriesSnoc(sig, opts, pcinfo, root, codeAddr, Changes(pcinfo, root, i), i);
    }
  }

  /** The loop of `generate_unfolded_entries` over the breakpoints. */
  method ScanBreakpoints(sig: MethodId -> string, opts: AgentOptions.Options, root: MethodId,
                         codeAddr: nat, pcinfo: seq<PCStackInfo>) returns (entries: seq<MapEntry>, startAddr: nat)
    requires FramesPresent(pcinfo)
    ensures var c := Changes(pcinfo, root, |pcinfo|);
      entries == ClosedEntries(sig, opts, pcinfo, root, codeAddr, c) && startAddr == RangeStart(pcinfo, codeAddr, c, |c|)
  {
    var rootName := sig(root);
    startAddr := codeAddr;
    var curMethod := root;
    entries := [];
    var i := 0;
    while i < |pcinfo|
      invariant 0 <= i <= |pcinfo|
      invariant curMethod == CurrentBefore(pcinfo, root, i)
      invariant startAddr == RangeStart(pcinfo, codeAddr, Changes(pcinfo, root, i), |Changes(pcinfo, root, i)|)
      invariant entries == ClosedEntries(sig, opts, pcinfo, root, codeAddr, Changes(pcinfo, root, i))
    {
      var topMethod := pcinfo[i].methods[0];
      ScanStep(sig, opts, pcinfo, root, codeAddr, i);
      if curMethod != topMethod {
        var endAddr := pcinfo[i].pc;
        var e: MapEntry;
        if i > 0 {
          e := WriteUnfoldedEntry(sig, opts, pcinfo[i - 1], root, rootName, startAddr, endAddr);
        } else {
          var len := endAddr as int - startAddr as int;
          e := MapEntry(startAddr, len, sig(root));
        }
        entries := entries + [e];
        startAddr := pcinfo[i].pc;
        curMethod := topMethod;
      }
      i := i + 1;
    }
  }

  /** `generate_unfolded_entries`: the scan over the breakpoints and the closing of the last range. */
  method GenerateUnfoldedEntries(sig: MethodId -> string, opts: AgentOptions.Options, root: MethodId,
                                 codeSize: nat, codeAddr: nat, info: CompileInfo) returns (entries: seq<MapEntry>)
    requires WellFormedInfo(info)
    ensures entries == UnfoldedEntries(sig, opts, root, codeSize, codeAddr, info)
  {
    var rootName := sig(root);
    if info.InlineRecord? {
      var pcinfo := info.pcinfo;
      var startAddr;
      entries, startAddr := ScanBreakpoints(sig, opts, root, codeAddr, pcinfo);
      ghost var c := Changes(pcinfo, root, |pcinfo|);
      ClosedEntriesAt(sig, opts, pcinfo, root, codeAddr, c);
      if startAddr != codeAddr + codeSize {
        var endAddr := codeAddr + codeSize;
        var e: MapEntry;
        if |pcinfo| > 0 {
          e := WriteUnfoldedEntry(sig, opts, pcinfo[|pcinfo| - 1], root, rootName, startAddr, endAddr);
        } else {
          var len := endAddr as int - startAddr as int;
          e := MapEntry(startAddr, len, sig(root));
        }
        assert [e] == TailEntries(sig, opts, pcinfo, root, codeSize, codeAddr, c);
        entries := entries + [e];
      } else {
        assert TailEntries(sig, opts, pcinfo, root, codeSize, codeAddr, c) == [];
      }
    } else {
      entries := [MapEntry(codeAddr, codeSize, sig(root))];
    }
  }

  // ---------------------------------------------------------------------------
  // Properties of the entries

  /** The entries cover `[codeAddr, codeAddr + codeSize)` back to back. */
  predicate Partitions(e: seq<MapEntry>, codeAddr: nat, codeSize: nat) {
    && (|e| == 0 ==> codeSize == 0)
    && (|e| > 0 ==> e[0].addr == codeAddr && e[|e| - 1].addr + e[|e| - 1].size == codeAddr + codeSize)
    && (forall j :: 0 <= j < |e| - 1 ==> e[j].addr + e[j].size == e[j + 1].addr)
  }

  /** Without inline information the whole blob is one entry named by the root. */
  lemma NoInlineSingleEntry(sig: MethodId -> string, opts: AgentOptions.Options, root: MethodId,
                            codeSize: nat, codeAddr: nat)
    ensures UnfoldedEntries(sig, opts, root, codeSize, codeAddr, NoInlineInfo) == [MapEntry(codeAddr, codeSize, sig(root))]
    ensures Partitions(UnfoldedEntries(sig, opts, root, codeSize, codeAddr, NoInlineInfo), codeAddr, codeSize)
  {
  }

  /**
   * With an inline record the entries cover the blob back to back, one range
   * per change of the top of the stack plus the rest of the blob when that is
   * not empty.
   */
  lemma UnfoldPartition(sig: MethodId -> string, opts: AgentOptions.Options, root: MethodId,
                        codeSize: nat, codeAddr: nat, pcinfo: seq<PCStackInfo>)
    requires FramesPresent(pcinfo)
    ensures var c := Changes(pcinfo, root, |pcinfo|);
      var e := UnfoldedEntries(sig, opts, root, codeSize, codeAddr, InlineRecord(pcinfo));
      Partitions(e, codeAddr, codeSize) && |c| <= |e| <= |c| + 1
  {
    var c := Changes(pcinfo, root, |pcinfo|);
    var closed := ClosedEntries(sig, opts, pcinfo, root, codeAddr, c);
    var tail := TailEntries(sig, opts, pcinfo, root, codeSize, codeAddr, c);
    var e := closed + tail;
    ClosedEntriesAt(sig, opts, pcinfo, root, codeAddr, c);
    forall j | 0 <= j < |e| - 1
      ensures e[j].addr + e[j].size == e[j + 1].addr
    {
      assert e[j] == closed[j];
      if j + 1 < |c| {
        assert e[j + 1] == closed[j + 1];
      } else {
        assert e[j + 1] == tail[0];
      }
    }
    if |e| > 0 {
      if |c| > 0 {
        assert e[0] == closed[0];
      }
      if |tail| == 0 {
        assert e[|e| - 1] == closed[|c| - 1];
      }
    }
    assert Partitions(e, codeAddr, codeSize);
  }

  /**
   * Each range but the last ends exactly at a breakpoint where the top of the
   * stack changes, and every such breakpoint ends a range.
   */
  lemma RangesEndAtChanges(sig: MethodId -> string, opts: AgentOptions.Options, root: MethodId,
                           codeSize: nat, codeAddr: nat, pcinfo: seq<PCStackInfo>)
    requires FramesPresent(pcinfo)
    ensures var c := Changes(pcinfo, root, |pcinfo|);
      var e := UnfoldedEntries(sig, opts, root, codeSize, codeAddr, InlineRecord(pcinfo));
      && |c| <= |e|
      && (forall j :: 0 <= j < |c| ==> e[j].addr + e[j].size == pcinfo[c[j]].pc)
      && StrictlyIncreasing(c)
      && (forall i :: 0 <= i < |pcinfo| ==> (IsChange(pcinfo, root, i) <==> i in c))
  {
    var c := Changes(pcinfo, root, |pcinfo|);
    ChangesSpec(pcinfo, root, |pcinfo|);
    var closed := ClosedEntries(sig, opts, pcinfo, root, codeAddr, c);
    ClosedEntriesAt(sig, opts, pcinfo, root, codeAddr, c);
    var tail := TailEntries(sig, opts, pcinfo, root, codeSize, codeAddr, c);
    var e := closed + tail;
    forall j | 0 <= j < |c|
      ensures e[j].addr + e[j].size == pcinfo[c[j]].pc
    {
      assert e[j] == closed[j];
    }
  }

  /**
   * With breakpoints ascending inside the blob, no range has a negative size
   * (the ranges do not overlap) and none is longer than the blob.
   */
  lemma UnfoldSizesNonNegative(sig: MethodId -> string, opts: AgentOptions.Options, root: MethodId,
                               codeSize: nat, codeAddr: nat, pcinfo: seq<PCStackInfo>)
    requires FramesPresent(pcinfo)
    requires forall i :: 0 <= i < |pcinfo| ==> codeAddr <= pcinfo[i].pc <= codeAddr + codeSize
    requires forall i, k :: 0 <= i < k < |pcinfo| ==> pcinfo[i].pc <= pcinfo[k].pc
    ensures forall j :: 0 <= j < |UnfoldedEntries(sig, opts, root, codeSize, codeAddr, InlineRecord(pcinfo))| ==>
              0 <= UnfoldedEntries(sig, opts, root, codeSize, codeAddr, InlineRecord(pcinfo))[j].size <= codeSize
  {
    var c := Changes(pcinfo, root, |pcinfo|);
    ChangesSpec(pcinfo, root, |pcinfo|);
    var closed := ClosedEntries(sig, opts, pcinfo, root, codeAddr, c);
    ClosedEntriesAt(sig, opts, pcinfo, root, codeAddr, c);
    var tail := TailEntries(sig, opts, pcinfo, root, codeSize, codeAddr, c);
    var e: seq<MapEntry> := closed + tail;
    forall j | 0 <= j < |e|
      ensures 0 <= e[j].size <= codeSize
    {
      if j < |closed| {
        assert e[j] == ClosedEntry(sig, opts, pcinfo, root, codeAddr, c, j);
        if j > 0 {
          assert c[j - 1] < c[j];
          assert pcinfo[c[j - 1]].pc <= pcinfo[c[j]].pc;
        }
      } else {
        assert e[j] == tail[0];
        assert RangeStart(pcinfo, codeAddr, c, |c|) <= codeAddr + codeSize;
      }
    }
  }

  /**
   * With breakpoints ascending inside a blob of a `jint` size, the `unsigned
   * int` lengths written are exactly the ranges' lengths.
   */
  lemma WrittenSizesExact(sig: MethodId -> string, opts: AgentOptions.Options, root: MethodId,
                          codeSize: nat, codeAddr: nat, pcinfo: seq<PCStackInfo>)
    requires FramesPresent(pcinfo) && codeSize < 0x8000_0000
    requires forall i :: 0 <= i < |pcinfo| ==> codeAddr <= pcinfo[i].pc <= codeAddr + codeSize
    requires forall i, k :: 0 <= i < k < |pcinfo| ==> pcinfo[i].pc <= pcinfo[k].pc
    ensures var e := UnfoldedEntries(sig, opts, root, codeSize, codeAddr, InlineRecord(pcinfo));
      forall j :: 0 <= j < |e| ==> WrittenSize(e[j].size) == e[j].size
  {
    UnfoldSizesNonNegative(sig, opts, root, codeSize, codeAddr, pcinfo);
  }

  /**
   * A breakpoint before the blob gives a negative length, which reaches the map
   * file as a huge `unsigned int`: blob `[100, 110)`, the top changing at pc 50.
   */
  lemma BreakpointBeforeBlobWraps(sig: MethodId -> string, opts: AgentOptions.Options)
    ensures var e := UnfoldedEntries(sig, opts, 0, 10, 100, InlineRecord([PCStackInfo(50, [1])]));
      |e| == 2 && e[0].size == -50 && WrittenSize(e[0].size) == 4294967246
  {
    var pcinfo := [PCStackInfo(50, [1])];
    ChangesSpec(pcinfo, 0, 1);
    var c := Changes(pcinfo, 0, 1);
    assert IsChange(pcinfo, 0, 0);
    assert c == [0];
    ClosedEntriesAt(sig, opts, pcinfo, 0, 100, c);
  }

  /** A change at the first breakpoint closes a range `[codeAddr, pc0)` named by the root alone. */
  lemma FirstBreakpointChange(sig: MethodId -> string, opts: AgentOptions.Options, root: MethodId,
                              codeSize: nat, codeAddr: nat, pcinfo: seq<PCStackInfo>)
    requires FramesPresent(pcinfo) && |pcinfo| > 0 && Top(pcinfo, 0) != root
    ensures var e := UnfoldedEntries(sig, opts, root, codeSize, codeAddr, InlineRecord(pcinfo));
      |e| > 0 && e[0] == MapEntry(codeAddr, pcinfo[0].pc - codeAddr, sig(root))
  {
    ChangesSpec(pcinfo, root, |pcinfo|);
    var c := Changes(pcinfo, root, |pcinfo|);
    assert 0 in c;
    var k :| 0 <= k < |c| && c[k] == 0;
  }

  // ---------------------------------------------------------------------------
  // Which method a range belongs to

  /** The method current over range `j`: the root, then the top at the previous change. */
  function Owner(pcinfo: seq<PCStackInfo>, root: MethodId, c: seq<nat>, j: nat): MethodId
    requires FramesPresent(pcinfo) && j <= |c| && forall k :: 0 <= k < |c| ==> c[k] < |pcinfo|
  {
    if j == 0 then root else Top(pcinfo, c[j - 1])
  }

  /** Every breakpoint inside range `j` has the range's owner on top. */
  lemma {:induction false} SameTopOverRange(pcinfo: seq<PCStackInfo>, root: MethodId, j: nat, p: nat)
    requires FramesPresent(pcinfo)
    requires j <= |Changes(pcinfo, root, |pcinfo|)|
    requires var c := Changes(pcinfo, root, |pcinfo|);
      (if j == 0 then 0 else c[j - 1]) <= p < (if j < |c| then c[j] else |pcinfo|)
    ensures Top(pcinfo, p) == Owner(pcinfo, root, Changes(pcinfo, root, |pcinfo|), j)
    decreases p
  {
    var c := Changes(pcinfo, root, |pcinfo|);
    ChangesSpec(pcinfo, root, |pcinfo|);
    var lo := if j == 0 then 0 else c[j - 1];
    if j > 0 && p == lo {
    } else {
      // no change at p: it lies strictly inside the range
      forall k | 0 <= k < |c| ensures c[k] != p {
        if k < j {
          assert c[k] <= lo;
        } else {
          assert c[j] <= c[k];
        }
      }
      assert !IsChange(pcinfo, root, p);
      if p > lo {
        SameTopOverRange(pcinfo, root, j, p - 1);
      }
    }
  }

  /** Outside `unfold_all`, the name a range gets from the method that owns it. */
  function OwnerName(sig: MethodId -> string, opts: AgentOptions.Options, m: MethodId, root: MethodId): string {
    if m == root then sig(root) else InlinedName(sig, opts, m, sig(root))
  }

  /**
   * The stack that names a range (`pcinfo[i - 1]` for a range closed at `i`, the
   * last stack for the final range) has the range's owner on top; so outside
   * `unfold_all` every range is named by the method current over it, and a
   * range the root owns carries the root's name.
   */
  lemma RangesNamedByOwner(sig: MethodId -> string, opts: AgentOptions.Options, root: MethodId,
                           codeSize: nat, codeAddr: nat, pcinfo: seq<PCStackInfo>)
    requires FramesPresent(pcinfo) && !opts.unfoldAll
    ensures var c := Changes(pcinfo, root, |pcinfo|);
      var e := UnfoldedEntries(sig, opts, root, codeSize, codeAddr, InlineRecord(pcinfo));
      forall j :: 0 <= j < |e| ==> j <= |c| && e[j].name == OwnerName(sig, opts, Owner(pcinfo, root, c, j), root)
  {
    var c := Changes(pcinfo, root, |pcinfo|);
    ChangesSpec(pcinfo, root, |pcinfo|);
    var closed := ClosedEntries(sig, opts, pcinfo, root, codeAddr, c);
    var tail := TailEntries(sig, opts, pcinfo, root, codeSize, codeAddr, c);
    var e := closed + tail;
    ClosedEntriesAt(sig, opts, pcinfo, root, codeAddr, c);
    forall j | 0 <= j < |e|
      ensures j <= |c| && e[j].name == OwnerName(sig, opts, Owner(pcinfo, root, c, j), root)
    {
      if j < |c| {
        assert e[j] == closed[j];
        if j > 0 {
          assert c[j - 1] < c[j];
          SameTopOverRange(pcinfo, root, j, c[j] - 1);
        } else if c[0] > 0 {
          SameTopOverRange(pcinfo, root, 0, c[0] - 1);
        }
      } else {
        assert j == |c|;
        if |pcinfo| > 0 {
          var lo := if j == 0 then 0 else c[j - 1];
          assert lo <= |pcinfo| - 1;
          SameTopOverRange(pcinfo, root, j, |pcinfo| - 1);
        }
      }
    }
  }
}
