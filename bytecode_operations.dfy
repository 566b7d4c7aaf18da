/** `ByteCodeOperation` and `ByteCodeOperator`: a byte string cut into
    operations, edited by filter-and-replace, joined back into bytes and
    summarised as text.

    `dis.opname` and `dis.HAVE_ARGUMENT` belong to the running interpreter; they
    enter the model as an `OpcodeTable` value. */
module BytecodeOperations {
  import opened Results

  newtype byte = x: int | 0 <= x < 256

  /** `dis.opname` (one name per opcode) and `dis.HAVE_ARGUMENT`. */
  datatype OpcodeTable = OpcodeTable(opnames: seq<string>, haveArgument: int)

  type ValidOpcodeTable = t: OpcodeTable | |t.opnames| == 256
    witness OpcodeTable(seq(256, i => ""), 90)

  /** `operation_bytes[0]` on an empty byte string raises `IndexError`. */
  datatype Error = IndexError

  const CacheName: string := "CACHE"

  datatype Operation = Operation(code: byte, name: string, bytes: seq<byte>, haveArgument: bool,
                                 size: nat, argument: Option<seq<byte>>)

  /** The fields `ByteCodeOperation.__init__` derives agree with the bytes:
      `code` is the first byte, `name` its entry in the table, `size` the
      length, and `argument` the bytes after the first exactly when the
      operation is flagged as having one. */
  predicate Consistent(op: Operation, table: ValidOpcodeTable) {
    && |op.bytes| > 0
    && op.code == op.bytes[0]
    && op.name == table.opnames[op.code as int]
    && op.size == |op.bytes|
    && op.argument == (if op.haveArgument then Some(op.bytes[1..]) else None)
  }

  /** `ByteCodeOperation(operation_bytes, have_argument)`. */
  function NewOperation(operationBytes: seq<byte>, haveArgument: bool, table: ValidOpcodeTable): (r: Result<Operation, Error>)
    ensures r.Ok? <==> |operationBytes| > 0
    ensures r.Ok? ==> Consistent(r.value, table) && r.value.bytes == operationBytes && r.value.haveArgument == haveArgument
  {
    if |operationBytes| == 0 then Err(IndexError)
    else
      Ok(Operation(operationBytes[0], table.opnames[operationBytes[0] as int], operationBytes, haveArgument,
                   |operationBytes|, if haveArgument then Some(operationBytes[1..]) else None))
  }

  /** Width of the operation that starts with opcode `code`. */
  function Width(code: byte, table: ValidOpcodeTable): nat {
    if code as int >= table.haveArgument then 3 else 1
  }

  /** The operations the loop of `ByteCodeOperator.__init__` cuts `b` into:
      a slice of `Width` bytes, or of what is left when the input runs out. */
  function Parse(b: seq<byte>, table: ValidOpcodeTable): seq<Operation>
    decreases |b|
  {
    if |b| == 0 then []
    else
      var end := if Width(b[0], table) <= |b| then Width(b[0], table) else |b|;
      [NewOperation(b[..end], b[0] as int >= table.haveArgument, table).value] + Parse(b[end..], table)
  }

  /** `b''.join([x.bytes for x in operations])`. */
  function Join(ops: seq<Operation>): seq<byte> {
    if ops == [] then [] else ops[0].bytes + Join(ops[1..])
  }

  /** What one operation contributes to `replace_operation`'s new list. */
  function Contribution(op: Operation, recognize: Operation -> bool, replace: Operation -> Option<Operation>): seq<Operation> {
    if !recognize(op) then [op]
    else match replace(op)
      case None => []
      case Some(op') => [op']
  }

  /** The list `replace_operation` builds. */
  function Replaced(ops: seq<Operation>, recognize: Operation -> bool, replace: Operation -> Option<Operation>): seq<Operation> {
    if ops == [] then [] else Contribution(ops[0], recognize, replace) + Replaced(ops[1..], recognize, replace)
  }

  /** The entry of `ByteCodeOperator.__str__` for an operation other than `CACHE`. */
  function Describe(op: Operation): string {
    if op.haveArgument then op.name + " (with arguments)" else op.name
  }

  /** The entries of `ByteCodeOperator.__str__`, given whether a `CACHE`
      operation has been met before `ops`. */
  function Summary(ops: seq<Operation>, cacheSeen: bool): seq<string> {
    if ops == [] then []
    else if ops[0].name == CacheName then (if cacheSeen then [] else ["..."]) + Summary(ops[1..], true)
    else [Describe(ops[0])] + Summary(ops[1..], cacheSeen)
  }

  /** `sep.join(parts)`. */
  function JoinStrings(parts: seq<string>, sep: string): string {
    if |parts| == 0 then ""
    else if |parts| == 1 then parts[0]
    else parts[0] + sep + JoinStrings(parts[1..], sep)
  }

  function DigitChar(d: nat): char
    requires d < 10
  {
    "0123456789"[d]
  }

  /** Python's `str` of a non-negative `int`. */
  function NatToString(n: nat): string
    decreases n
  {
    if n < 10 then [DigitChar(n)] else NatToString(n / 10) + [DigitChar(n % 10)]
  }

  /** `ByteCodeOperation.__str__` (the word "lenth" is the source's). */
  function OperationToString(op: Operation): string {
    var aboutArguments := if !op.haveArgument then "no arguments" else "arguments";
    "<Operation \"" + op.name + "\" with " + aboutArguments + ", lenth " + NatToString(op.size) + ">"
  }

  class ByteCodeOperator {
    const table: ValidOpcodeTable
    const bytecode: seq<byte>
    var operations: seq<Operation>

    /** `ByteCodeOperator.__init__`: cuts `bytecode` into operations, front to back. */
    constructor (bytecode: seq<byte>, table: ValidOpcodeTable)
      ensures this.bytecode == bytecode && this.table == table
      ensures operations == Parse(bytecode, table)
      ensures GetBytes() == bytecode
    {
      this.bytecode := bytecode;
      this.table := table;
      operations := [];
      new;
      var index := 0;
      while index < |bytecode|
        invariant 0 <= index <= |bytecode| + 2
        invariant operations + Parse(Rest(bytecode, index), table) == Parse(bytecode, table)
        decreases |bytecode| - index
      {
        var operationCode := bytecode[index];
        var haveArgument := operationCode as int >= table.haveArgument;
        var offset := if haveArgument then 3 else 1;
        var end := if index + offset <= |bytecode| then index + offset else |bytecode|;
        var operation := NewOperation(bytecode[index..end], haveArgument, table);
        ParseLoopStep(bytecode, index, operations, table);
        operations := operations + [operation.value];
        index := index + offset;
      }
      assert Rest(bytecode, index) == [];
      JoinParse(bytecode, table);
    }

    /** `ByteCodeOperator.get_bytes`. */
    function GetBytes(): seq<byte>
      reads this
    {
      Join(operations)
    }

    /** `ByteCodeOperator.replace_operation`: builds the new list in one pass,
        then replaces `operations` with it. */
    method ReplaceOperation(recognize: Operation -> bool, replace: Operation -> Option<Operation>)
      modifies this
      ensures operations == Replaced(old(operations), recognize, replace)
    {
      var newOperations: seq<Operation> := [];
      for i := 0 to |operations|
        invariant operations == old(operations)
        invariant newOperations == Replaced(operations[..i], recognize, replace)
      {
        var operation := operations[i];
        ReplacedAppend(operations[..i], [operation], recognize, replace);
        assert operations[..i + 1] == operations[..i] + [operation];
        assert Replaced([operation], recognize, replace) == Contribution(operation, recognize, replace) + [];
        if recognize(operation) {
          var newOperation := replace(operation);
          if newOperation.Some? {
            newOperations := newOperations + [newOperation.value];
          }
        } else {
          newOperations := newOperations + [operation];
        }
      }
      assert operations[..|operations|] == operations;
      operations := newOperations;
    }

    /** `ByteCodeOperator.__str__`. */
    method ToString() returns (s: string)
      ensures s == "<Bytecode operation object with operations: " + JoinStrings(Summary(operations, false), ", ") + ">"
    {
      var ops := operations;
      var representations: seq<string> := [];
      var cacheOperationNumber: nat := 0;
      for i := 0 to |ops|
        invariant representations + Summary(ops[i..], cacheOperationNumber > 0) == Summary(ops, false)
      {
        var operation := ops[i];
        ghost var before, seen := representations, cacheOperationNumber > 0;
        SummaryStep(ops, i, seen);
        if operation.name == CacheName {
          cacheOperationNumber := cacheOperationNumber + 1;
          if cacheOperationNumber == 1 {
            representations := representations + ["..."];
          }
          AppendAssociative(before, if seen then [] else ["..."], Summary(ops[i + 1..], true));
        } else {
          if operation.haveArgument {
            representations := representations + [operation.name + " (with arguments)"];
          } else {
            representations := representations + [operation.name];
          }
          AppendAssociative(before, [Describe(operation)], Summary(ops[i + 1..], seen));
        }
      }
      assert ops[|ops|..] == [];
      assert representations + [] == representations;
      s := "<Bytecode operation object with operations: " + JoinStrings(representations, ", ") + ">";
    }
  }

  // ---------------------------------------------------------------------------
  // Parsing and joining
  // ---------------------------------------------------------------------------

  /** What is left of `b` once the loop index reaches `index`, which may be
      past the end by up to 2. */
  function Rest(b: seq<byte>, index: nat): seq<byte> {
    b[if index <= |b| then index else |b|..]
  }

  /** One iteration of the parse loop: the operation cut at `index` is the
      first of `Parse` on the rest of the input. */
  lemma ParseStep(b: seq<byte>, index: nat, table: ValidOpcodeTable)
    requires index < |b|
    ensures var end := if index + Width(b[index], table) <= |b| then index + Width(b[index], table) else |b|;
            Parse(Rest(b, index), table)
              == [NewOperation(b[index..end], b[index] as int >= table.haveArgument, table).value]
                 + Parse(Rest(b, index + Width(b[index], table)), table)
  {
    var rest := b[index..];
    var offset := Width(b[index], table);
    var end := if offset <= |rest| then offset else |rest|;
    assert rest[0] == b[index];
    assert rest[..end] == b[index..index + end];
    assert rest[end..] == b[index + end..];
  }

  /** The loop invariant of `ByteCodeOperator.__init__` survives one
      iteration. */
  lemma ParseLoopStep(b: seq<byte>, index: nat, ops: seq<Operation>, table: ValidOpcodeTable)
    requires index < |b|
    requires ops + Parse(Rest(b, index), table) == Parse(b, table)
    ensures var end := if index + Width(b[index], table) <= |b| then index + Width(b[index], table) else |b|;
            (ops + [NewOperation(b[index..end], b[index] as int >= table.haveArgument, table).value])
              + Parse(Rest(b, index + Width(b[index], table)), table)
            == Parse(b, table)
  {
    ParseStep(b, index, table);
    var end := if index + Width(b[index], table) <= |b| then index + Width(b[index], table) else |b|;
    var op := NewOperation(b[index..end], b[index] as int >= table.haveArgument, table).value;
    var tail := Parse(Rest(b, index + Width(b[index], table)), table);
    assert ops + [op] + tail == ops + ([op] + tail);
  }

  lemma {:induction false} JoinAppend(a: seq<Operation>, c: seq<Operation>)
    ensures Join(a + c) == Join(a) + Join(c)
  {
    if a == [] {
      assert a + c == c;
    } else {
      assert (a + c)[0] == a[0];
      assert (a + c)[1..] == a[1..] + c;
      JoinAppend(a[1..], c);
    }
  }

  /** Round trip: the operations cut from `b` join back into exactly `b`,
      because the slices partition the input in order. */
  lemma {:induction false} JoinParse(b: seq<byte>, table: ValidOpcodeTable)
    ensures Join(Parse(b, table)) == b
    decreases |b|
  {
    if |b| > 0 {
      var end := if Width(b[0], table) <= |b| then Width(b[0], table) else |b|;
      JoinParse(b[end..], table);
      assert b[..end] + b[end..] == b;
    }
  }

  /** A parsed operation is consistent with its bytes; it has an argument
      exactly when its opcode is at least `HAVE_ARGUMENT`; it is then 3 bytes
      long unless it is the last one and the input ran out, and 1 byte long
      otherwise. */
  predicate WellCut(op: Operation, last: bool, table: ValidOpcodeTable) {
    && Consistent(op, table)
    && (op.haveArgument <==> op.code as int >= table.haveArgument)
    && (op.haveArgument ==> 1 <= op.size <= 3 && (op.size == 3 || last))
    && (!op.haveArgument ==> op.size == 1)
  }

  /** Every operation of `Parse(b)` is cut as `WellCut` says. */
  lemma {:induction false} ParseShape(b: seq<byte>, table: ValidOpcodeTable)
    ensures forall k | 0 <= k < |Parse(b, table)| :: WellCut(Parse(b, table)[k], k == |Parse(b, table)| - 1, table)
    decreases |b|
  {
    if |b| > 0 {
      var end := if Width(b[0], table) <= |b| then Width(b[0], table) else |b|;
      ParseShape(b[end..], table);
      var ops := Parse(b, table);
      var rest := Parse(b[end..], table);
      var r := NewOperation(b[..end], b[0] as int >= table.haveArgument, table);
      assert ops == [r.value] + rest;
      assert end == |b| <==> rest == [] by {
        if end == |b| { assert b[end..] == []; } else { assert |b[end..]| > 0; }
      }
      assert WellCut(ops[0], 0 == |ops| - 1, table) by {
        assert |b[..end]| == end > 0;
        assert b[..end][0] == b[0];
      }
      forall k | 0 < k < |ops|
        ensures WellCut(ops[k], k == |ops| - 1, table)
      {
        assert ops[k] == rest[k - 1];
        assert WellCut(rest[k - 1], k - 1 == |rest| - 1, table);
      }
    }
  }

  /** Operation `k` starts at offset `|Join(ops[..k])|` of the input, and its
      `code` is the input byte at that offset. */
  lemma {:induction false} ParseOffsets(b: seq<byte>, table: ValidOpcodeTable, k: nat)
    requires k < |Parse(b, table)|
    ensures var ops := Parse(b, table);
            var start := |Join(ops[..k])|;
            && 0 < ops[k].size
            && start + ops[k].size <= |b|
            && b[start..start + ops[k].size] == ops[k].bytes
            && ops[k].code == b[start]
  {
    var ops := Parse(b, table);
    ParseShape(b, table);
    assert WellCut(ops[k], k == |ops| - 1, table);
    JoinParse(b, table);
    JoinAround(ops, k);
  }

  /** The bytes of operation `k` sit between those of the operations before
      it and those after it. */
  lemma {:induction false} JoinAround(ops: seq<Operation>, k: nat)
    requires k < |ops|
    ensures Join(ops) == Join(ops[..k]) + ops[k].bytes + Join(ops[k + 1..])
  {
    var before, middle, after := ops[..k], [ops[k]], ops[k + 1..];
    assert ops == before + middle + after;
    JoinAppend(before + middle, after);
    JoinAppend(before, middle);
    assert middle[1..] == [];
    assert Join(middle) == ops[k].bytes + Join(middle[1..]);
  }

  // ---------------------------------------------------------------------------
  // replace_operation
  // ---------------------------------------------------------------------------

  /** Operations are handled one at a time, in order: the new list of a
      concatenation is the concatenation of the new lists. */
  lemma {:induction false} ReplacedAppend(a: seq<Operation>, c: seq<Operation>,
                                          recognize: Operation -> bool, replace: Operation -> Option<Operation>)
    ensures Replaced(a + c, recognize, replace) == Replaced(a, recognize, replace) + Replaced(c, recognize, replace)
  {
    if a == [] {
      assert a + c == c;
    } else {
      assert (a + c)[0] == a[0];
      assert (a + c)[1..] == a[1..] + c;
      ReplacedAppend(a[1..], c, recognize, replace);
    }
  }

  /** A recogniser that matches none of the operations leaves the list, and
      so the joined bytes, unchanged. */
  lemma {:induction false} ReplacedNoMatch(ops: seq<Operation>, recognize: Operation -> bool, replace: Operation -> Option<Operation>)
    requires forall i | 0 <= i < |ops| :: !recognize(ops[i])
    ensures Replaced(ops, recognize, replace) == ops
    ensures Join(Replaced(ops, recognize, replace)) == Join(ops)
  {
    if ops != [] {
      assert forall i | 0 <= i < |ops| - 1 :: ops[1..][i] == ops[i + 1];
      ReplacedNoMatch(ops[1..], recognize, replace);
      assert [ops[0]] + ops[1..] == ops;
    }
  }

  /** When the callback returns an operation for every recognised one, the
      list keeps its length and each entry is either the callback's result
      (recognised) or the original operation (not recognised). */
  lemma {:induction false} ReplacedPointwise(ops: seq<Operation>, recognize: Operation -> bool, replace: Operation -> Option<Operation>)
    requires forall i | 0 <= i < |ops| :: recognize(ops[i]) ==> replace(ops[i]).Some?
    ensures |Replaced(ops, recognize, replace)| == |ops|
    ensures forall i | 0 <= i < |ops| ::
              Replaced(ops, recognize, replace)[i] == if recognize(ops[i]) then replace(ops[i]).value else ops[i]
  {
    if ops != [] {
      assert forall i | 0 <= i < |ops| - 1 :: ops[1..][i] == ops[i + 1];
      ReplacedPointwise(ops[1..], recognize, replace);
      var r := Replaced(ops, recognize, replace);
      assert r == Contribution(ops[0], recognize, replace) + Replaced(ops[1..], recognize, replace);
      forall i | 0 <= i < |ops|
        ensures r[i] == if recognize(ops[i]) then replace(ops[i]).value else ops[i]
      {
        if i > 0 { assert r[i] == Replaced(ops[1..], recognize, replace)[i - 1]; }
      }
    }
  }

  /** When the callback returns `None` for every recognised operation, exactly
      the operations that are not recognised remain, each as many times as
      it occurred. */
  lemma {:induction false} ReplacedDropping(ops: seq<Operation>, recognize: Operation -> bool, replace: Operation -> Option<Operation>)
    requires forall i | 0 <= i < |ops| :: recognize(ops[i]) ==> replace(ops[i]).None?
    ensures forall op :: op in Replaced(ops, recognize, replace) <==> op in ops && !recognize(op)
    ensures forall op :: multiset(Replaced(ops, recognize, replace))[op] == if recognize(op) then 0 else multiset(ops)[op]
  {
    if ops != [] {
      assert forall i | 0 <= i < |ops| - 1 :: ops[1..][i] == ops[i + 1];
      ReplacedDropping(ops[1..], recognize, replace);
      assert ops == [ops[0]] + ops[1..];
    }
  }

  // ---------------------------------------------------------------------------
  // __str__
  // ---------------------------------------------------------------------------

  /** The entries of every operation other than `CACHE`, in order. */
  function NonCacheDescriptions(ops: seq<Operation>): seq<string> {
    if ops == [] then []
    else if ops[0].name == CacheName then NonCacheDescriptions(ops[1..])
    else [Describe(ops[0])] + NonCacheDescriptions(ops[1..])
  }

  lemma AppendAssociative<T>(a: seq<T>, b: seq<T>, c: seq<T>)
    ensures a + b + c == a + (b + c)
  {
  }

  /** One iteration of the loop of `ByteCodeOperator.__str__`: the entry
      operation `i` contributes, given whether a `CACHE` operation came before. */
  lemma SummaryStep(ops: seq<Operation>, i: nat, cacheSeen: bool)
    requires i < |ops|
    ensures Summary(ops[i..], cacheSeen)
         == (if ops[i].name == CacheName then (if cacheSeen then [] else ["..."]) else [Describe(ops[i])])
            + Summary(ops[i + 1..], cacheSeen || ops[i].name == CacheName)
  {
    assert ops[i..][0] == ops[i] && ops[i..][1..] == ops[i + 1..];
  }

  /** Once a `CACHE` operation has been met, every later `CACHE` contributes
      nothing. */
  lemma {:induction false} SummaryAfterCache(ops: seq<Operation>)
    ensures Summary(ops, true) == NonCacheDescriptions(ops)
  {
    if ops != [] {
      SummaryAfterCache(ops[1..]);
    }
  }

  /** Without a `CACHE` operation the summary lists every operation. */
  lemma {:induction false} SummaryWithoutCache(ops: seq<Operation>)
    requires forall i | 0 <= i < |ops| :: ops[i].name != CacheName
    ensures Summary(ops, false) == NonCacheDescriptions(ops)
  {
    if ops != [] {
      assert forall i | 0 <= i < |ops| - 1 :: ops[1..][i] == ops[i + 1];
      SummaryWithoutCache(ops[1..]);
    }
  }

  /** The counter is never reset: only the first `CACHE` operation of the
      whole list contributes `...`, at its position among the other entries. */
  lemma {:induction false} SummaryFirstCache(ops: seq<Operation>, j: nat)
    requires j < |ops| && ops[j].name == CacheName
    requires forall i | 0 <= i < j :: ops[i].name != CacheName
    ensures Summary(ops, false) == NonCacheDescriptions(ops[..j]) + ["..."] + NonCacheDescriptions(ops[j + 1..])
  {
    if j == 0 {
      SummaryAfterCache(ops[1..]);
      assert ops[..0] == [];
      assert ops[0 + 1..] == ops[1..];
    } else {
      var tail := ops[1..];
      assert forall i | 0 <= i < j - 1 :: tail[i] == ops[i + 1];
      SummaryFirstCache(tail, j - 1);
      assert tail[..j - 1] == ops[1..j];
      assert tail[j - 1 + 1..] == ops[j + 1..];
      assert ops[..j][0] == ops[0] && ops[..j][1..] == ops[1..j];
    }
  }

  // ---------------------------------------------------------------------------
  // Decimal numbers
  // ---------------------------------------------------------------------------

  /** The number a string of decimal digits denotes. */
  function DecimalValue(s: string): nat
    requires forall i | 0 <= i < |s| :: '0' <= s[i] <= '9'
  {
    if s == [] then 0 else 10 * DecimalValue(s[..|s| - 1]) + (s[|s| - 1] as int - '0' as int)
  }

  lemma DigitCharValue(d: nat)
    requires d < 10
    ensures '0' <= DigitChar(d) <= '9' && DigitChar(d) as int - '0' as int == d
  {
  }

  /** The size in `OperationToString` is written in decimal digits, without
      leading zeros, and denotes the size. */
  lemma {:induction false} NatToStringDecimal(n: nat)
    ensures |NatToString(n)| > 0
    ensures forall i | 0 <= i < |NatToString(n)| :: '0' <= NatToString(n)[i] <= '9'
    ensures |NatToString(n)| > 1 ==> NatToString(n)[0] != '0'
    ensures DecimalValue(NatToString(n)) == n
    decreases n
  {
    if n < 10 {
      DigitCharValue(n);
      assert NatToString(n)[..0] == [];
    } else {
      NatToStringDecimal(n / 10);
      DigitCharValue(n % 10);
      var s := NatToString(n);
      assert s[..|s| - 1] == NatToString(n / 10);
      assert s[0] == NatToString(n / 10)[0];
    }
  }

  /** `ByteCodeOperation.__str__` names the operation, says "no arguments" or
      "arguments" according to its flag and ends with its size in decimal. */
  lemma OperationToStringParts(op: Operation)
    ensures var digits := NatToString(op.size);
            var about := if op.haveArgument then "arguments" else "no arguments";
            && OperationToString(op) == "<Operation \"" + op.name + "\" with " + about + ", lenth " + digits + ">"
            && (forall i | 0 <= i < |digits| :: '0' <= digits[i] <= '9')
            && DecimalValue(digits) == op.size
  {
    NatToStringDecimal(op.size);
  }
}
