/** The result of running a work item, and its text form. */
module Results {
  import opened Outcomes
  import opened Text
  import Messages

  datatype WorkResult = WorkResult(exitStatus: CInt, stdout: string, stderr: string)

  /** Status and the two lengths, then both outputs, all separated by single blanks. */
  function Print(r: WorkResult): string {
    PrintInt(r.exitStatus) + ([' '] + (Decimal(|r.stdout|) + ([' '] + (Decimal(|r.stderr|)
    + ([' '] + (r.stdout + ([' '] + r.stderr)))))))
  }

  function Parse(str: string): Outcome<WorkResult, string> {
    var (status, in1) :- Messages.Need(ReadInt(str), "can't read exit status");
    var (outSize, in2) :- Messages.Need(ReadSize(in1), "can't read stdout size");
    var (errSize, in3) :- Messages.Need(ReadSize(in2), "can't read stderr size");
    var (stdout, in4) := ReadBlock(ReadBlock(in3, 1).1, outSize);
    Ok(WorkResult(status, stdout, ReadBlock(ReadBlock(in4, 1).1, errSize).0))
  }

  /** The constructor that reads a stream into the fields. */
  method FromString(str: string) returns (r: Outcome<WorkResult, string>)
    ensures r == Parse(str)
  {
    var stream := str;
    var status := ReadInt(stream);
    if status.None? { return Err("can't read exit status"); }
    stream := status.value.1;
    var outSize := ReadSize(stream);
    if outSize.None? { return Err("can't read stdout size"); }
    stream := outSize.value.1;
    var errSize := ReadSize(stream);
    if errSize.None? { return Err("can't read stderr size"); }
    stream := errSize.value.1;
    stream := ReadBlock(stream, 1).1;
    var stdout := ReadBlock(stream, outSize.value.0);
    stream := stdout.1;
    stream := ReadBlock(stream, 1).1;
    var stderr := ReadBlock(stream, errSize.value.0);
    return Ok(WorkResult(status.value.0, stdout.0, stderr.0));
  }

  /** A result whose text fits in a std::string. */
  predicate Fits(r: WorkResult) {
    |Print(r)| < SIZE_LIMIT
  }

  /** The text of a result: its numbers and outputs with one blank between them. */
  lemma PrintedText(r: WorkResult)
    ensures Print(r) == PrintInt(r.exitStatus) + " " + Decimal(|r.stdout|) + " " + Decimal(|r.stderr|) + " "
                        + r.stdout + " " + r.stderr
  {
  }

  /** Whatever stands behind a printed result is ignored. */
  lemma PrintedParsed(r: WorkResult, more: string)
    requires Fits(r)
    ensures Parse(PrintInt(r.exitStatus) + ([' '] + (Decimal(|r.stdout|) + ([' '] + (Decimal(|r.stderr|)
                  + ([' '] + (r.stdout + ([' '] + (r.stderr + more))))))))) == Ok(r)
  {
    var t4 := [' '] + (r.stderr + more);
    var t3 := [' '] + (r.stdout + t4);
    var t2 := [' '] + (Decimal(|r.stderr|) + t3);
    var t1 := [' '] + (Decimal(|r.stdout|) + t2);
    ReadIntPrinted(r.exitStatus, t1);
    ReadSizePrinted(|r.stdout|, t2);
    ReadSizePrinted(|r.stderr|, t3);
    ReadBlockExact([' '], r.stdout + t4);
    ReadBlockExact(r.stdout, t4);
    ReadBlockExact([' '], r.stderr + more);
    ReadBlockExact(r.stderr, more);
  }

  lemma RoundTrip(r: WorkResult)
    requires Fits(r)
    ensures Parse(Print(r)) == Ok(r)
  {
    PrintedParsed(r, "");
    assert r.stderr + "" == r.stderr;
  }

  /** A result that ends behind one of its numbers gives the error of the next one. */
  lemma EndsTooEarly(status: CInt, outSize: SizeT)
    ensures Parse("") == Err("can't read exit status")
    ensures Parse(PrintInt(status)) == Err("can't read stdout size")
    ensures Parse(PrintInt(status) + ([' '] + Decimal(outSize))) == Err("can't read stderr size")
  {
    ReadIntPrinted(status, "");
    assert PrintInt(status) + "" == PrintInt(status);
    ReadIntPrinted(status, [' '] + Decimal(outSize));
    ReadSizePrinted(outSize, "");
    assert Decimal(outSize) + "" == Decimal(outSize);
  }

  /** A result survives the trip inside a message: printed, wrapped as content, printed,
      unpacked and parsed again it is the triple the client obtained. */
  lemma NestedRoundTrip(r: WorkResult, from: Messages.Uuid, to: Messages.Uuid, id: SizeT)
    requires Fits(r)
    ensures var wire := Messages.Print(Messages.Message(from, to, Messages.Result, id, Print(r)));
            var received := Messages.Parse(wire);
            received.Ok? && received.value.id == id && Parse(received.value.content) == Ok(r)
  {
    Messages.RoundTrip(Messages.Message(from, to, Messages.Result, id, Print(r)));
    RoundTrip(r);
  }
}
