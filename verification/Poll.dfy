/** One poll of a controller: which reads it makes, what they are labelled with, and which samples come back. */
module Poll {
  import opened Wrappers
  import opened Sequences
  import opened Registry
  import Tlv

  /** A read as issued: the row it is labelled with and the row its name resolves to in turn. */
  datatype Read = Read(row: Spec, asked: Result<Spec, Invalid>, instance: int)

  datatype Sample = Sample(read: Read, value: Tlv.Value)

  /** The reads of one parameter, none if it does not resolve; each asks again by the row's own name. */
  function ReadsOf(fold: Fold, index: Index, parameter: Target, instances: seq<int>): seq<Read>
  {
    match Lookup(fold, index, parameter)
    case Err(_) => []
    case Ok(row) =>
      seq(|instances|, i requires 0 <= i < |instances| => Read(row, Lookup(fold, index, Name(row.name)), instances[i]))
  }

  function Reads(fold: Fold, index: Index, parameters: seq<Target>, instances: seq<int>): seq<Read>
  {
    Flatten(seq(|parameters|, p requires 0 <= p < |parameters| => ReadsOf(fold, index, parameters[p], instances)))
  }

  /** The samples of the first reads; read `i` fails when `answers(i)` is None. */
  function Answered(issued: seq<Read>, answers: nat -> Option<Tlv.Value>): seq<Sample>
  {
    if issued == [] then []
    else
      var n := |issued| - 1;
      Answered(issued[..n], answers) + if answers(n).Some? then [Sample(issued[n], answers(n).value)] else []
  }

  /** Samples follow the reads in order, and there is one for each read exactly when none fails. */
  lemma {:induction false} NoneFailed(issued: seq<Read>, answers: nat -> Option<Tlv.Value>)
    ensures |Answered(issued, answers)| <= |issued|
    ensures |Answered(issued, answers)| == |issued| <==> forall i: nat :: i < |issued| ==> answers(i).Some?
    ensures |Answered(issued, answers)| == |issued| ==>
              forall i: nat :: i < |issued| ==> Answered(issued, answers)[i] == Sample(issued[i], answers(i).value)
  {
    if issued != [] {
      var n := |issued| - 1;
      NoneFailed(issued[..n], answers);
      if |Answered(issued, answers)| == |issued| {
        assert |Answered(issued[..n], answers)| == n;
      }
    }
  }

  /** How many of the first `n` reads were answered. */
  function Good(answers: nat -> Option<Tlv.Value>, n: nat): (k: nat)
    ensures k <= n
  {
    if n == 0 then 0 else Good(answers, n - 1) + if answers(n - 1).Some? then 1 else 0
  }

  /** Every answered read has its sample, behind those of the answered reads before it, and there are no others. */
  lemma {:induction false} SampleOfEach(issued: seq<Read>, answers: nat -> Option<Tlv.Value>)
    ensures var samples := Answered(issued, answers);
      && |samples| == Good(answers, |issued|)
      && forall i: nat :: i < |issued| && answers(i).Some? ==>
           Good(answers, i) < |samples| && samples[Good(answers, i)] == Sample(issued[i], answers(i).value)
  {
    if issued != [] { SampleOfEach(issued[..|issued| - 1], answers); }
  }

  lemma AnsweredNone(answers: nat -> Option<Tlv.Value>)
    ensures Answered([], answers) == []
  {
  }

  lemma AnsweredSnoc(issued: seq<Read>, read: Read, answers: nat -> Option<Tlv.Value>)
    ensures Answered(issued + [read], answers)
         == if answers(|issued|).Some? then Answered(issued, answers) + [Sample(read, answers(|issued|).value)] else Answered(issued, answers)
  {
    assert (issued + [read])[..|issued|] == issued;
  }

  lemma FlattenNone<S>(blocks: seq<seq<S>>)
    ensures Flatten(blocks[..0]) == []
  {
  }

  /** The poll; `answers` says what each read returns, in the order they are made. */
  method PollController(fold: Fold, index: Index, parameters: seq<Target>, instances: seq<int>, answers: nat -> Option<Tlv.Value>)
    returns (samples: seq<Sample>)
    ensures samples == Answered(Reads(fold, index, parameters, instances), answers)
  {
    hide Answered, Lookup, Flatten;
    samples := [];
    AnsweredNone(answers);
    ghost var blocks := seq(|parameters|, p requires 0 <= p < |parameters| => ReadsOf(fold, index, parameters[p], instances));
    ghost var issued: seq<Read> := [];
    var made := 0;
    assert blocks[..0] == [] && Flatten(blocks[..0]) == [] by { FlattenNone(blocks); }
    for p := 0 to |parameters|
      invariant issued == Flatten(blocks[..p]) && |issued| == made && samples == Answered(issued, answers)
    {
      assert blocks[..p + 1] == blocks[..p] + [blocks[p]];
      FlattenSnoc(blocks[..p], blocks[p]);
      var row := Lookup(fold, index, parameters[p]);
      if row.Err? {
        assert blocks[p] == [];
        continue;
      }
      var asked := Lookup(fold, index, Name(row.value.name));
      ghost var before := issued;
      for i := 0 to |instances|
        invariant issued == before + blocks[p][..i] && |issued| == made && samples == Answered(issued, answers)
      {
        var read := Read(row.value, asked, instances[i]);
        assert blocks[p][..i + 1] == blocks[p][..i] + [read];
        AnsweredSnoc(issued, read, answers);
        if answers(made).Some? { samples := samples + [Sample(read, answers(made).value)]; }
        issued := issued + [read];
        made := made + 1;
      }
      assert blocks[p][..|instances|] == blocks[p];
    }
    assert blocks[..|parameters|] == blocks;
  }

  /**
   * A poll reads the row it labels exactly when that row keeps its own name in the index: the name was not
   * given to another id, and no later row of that name takes it over.
   */
  lemma ReadsWhatItLabels(fold: Fold, owners: map<string, int>, rows: seq<Spec>, i: nat)
    requires UniqueIds(rows) && i < |rows|
    ensures var index := IndexOf(fold, owners, rows);
      && Lookup(fold, index, Id(rows[i].id)) == Ok(rows[i])
      && (Lookup(fold, index, Name(rows[i].name)) == Ok(rows[i])
          <==> Named(fold, owners, rows[i])
               && forall j :: i < j < |rows| && fold(rows[j].name) == fold(rows[i].name) ==> !Named(fold, owners, rows[j]))
  {
    hide IndexOf, Named, HasAlias, ScanFinds;
    var index, key := IndexOf(fold, owners, rows), fold(rows[i].name);
    assert rows[i].id in Ids(rows);
    IdFinds(fold, owners, rows, rows[i].id);
    SameRow(rows, index.byId[rows[i].id], rows[i]);
    IndexIsScan(fold, owners, rows, key);
    if Lookup(fold, index, Name(rows[i].name)) == Ok(rows[i]) {
      IndexFinds(fold, owners, rows, key);
      var j :| 0 <= j < |rows| && ScanFinds(fold, owners, rows, key, j) && index.byName[key] == rows[j];
      assert j == i;
    }
    OwnNameScan(fold, owners, rows, i);
  }

  /** The scan for a row's own name ends at that row exactly when it may carry the name and no later row does. */
  lemma OwnNameScan(fold: Fold, owners: map<string, int>, rows: seq<Spec>, i: nat)
    requires i < |rows|
    ensures ScanFinds(fold, owners, rows, fold(rows[i].name), i)
       <==> Named(fold, owners, rows[i])
            && forall j :: i < j < |rows| && fold(rows[j].name) == fold(rows[i].name) ==> !Named(fold, owners, rows[j])
  {
    hide Named, HasAlias;
    var key := fold(rows[i].name);
    assert CanonicalAt(fold, owners, rows, key, i) <==> Named(fold, owners, rows[i]);
    forall j | i < j < |rows| ensures CanonicalAt(fold, owners, rows, key, j) <==> fold(rows[j].name) == key && Named(fold, owners, rows[j]) {}
  }

  /** Two rows of one name: a poll of the first by its id reads the second and labels it as the first. */
  lemma MislabelledRead(fold: Fold, a: Spec, b: Spec, instance: int)
    requires a.id != b.id && a.name == b.name
    ensures ReadsOf(fold, IndexOf(fold, map[], [a, b]), Id(a.id), [instance]) == [Read(a, Ok(b), instance)]
  {
    var rows := [a, b];
    var index := IndexOf(fold, map[], rows);
    ReadsWhatItLabels(fold, map[], rows, 0);
    ReadsWhatItLabels(fold, map[], rows, 1);
  }
}
