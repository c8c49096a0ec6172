/**
 Pass 1: for every read, in file order, match it to a primer pair, soft-clip
 its alignment for that pair, and record the result under the read's key.
 A later read with the same key overwrites an earlier one.
 */
module ReadTransformations {
  import opened Types

  /** The transformation the first pass records for one read. */
  function TransformationOf(engine: Engine, registry: seq<PrimerPair>, read: Read): Transformation
  {
    var primerPair := engine.getPrimerPair(registry, read);
    var newCigar := engine.softclipPrimers(primerPair, engine.cigarFactory(read));
    Transformation(primerPair, newCigar.referenceStart, newCigar.cigarString)
  }

  /** The keys of a sequence of reads. */
  function KeysOf(inputReads: seq<Read>): set<ReadKey>
  {
    set i | 0 <= i < |inputReads| :: inputReads[i].key
  }

  /** The map the first pass builds from a sequence of reads: the map built
      from all but the last read, updated with the last read's entry. */
  function TransformationsOf(engine: Engine, registry: seq<PrimerPair>, inputReads: seq<Read>)
    : (m: map<ReadKey, Transformation>)
    ensures m.Keys == KeysOf(inputReads)
    decreases |inputReads|
  {
    if |inputReads| == 0 then map[]
    else
      var n := |inputReads| - 1;
      var m := TransformationsOf(engine, registry, inputReads[..n]);
      assert KeysOf(inputReads) == KeysOf(inputReads[..n]) + {inputReads[n].key} by {
        forall k | k in KeysOf(inputReads) ensures k in KeysOf(inputReads[..n]) + {inputReads[n].key} {
          var i :| 0 <= i < |inputReads| && inputReads[i].key == k;
          if i < n { assert inputReads[..n][i] == inputReads[i]; }
        }
        forall k | k in KeysOf(inputReads[..n]) ensures k in KeysOf(inputReads) {
          var i :| 0 <= i < n && inputReads[..n][i].key == k;
          assert inputReads[i].key == k;
        }
      }
      m[inputReads[n].key := TransformationOf(engine, registry, inputReads[n])]
  }

  /** The entry for a key is the transformation of the LAST read carrying that
      key. */
  lemma {:induction false} LastReadWins(engine: Engine, registry: seq<PrimerPair>, inputReads: seq<Read>, i: int)
    requires 0 <= i < |inputReads|
    requires forall j :: i < j < |inputReads| ==> inputReads[j].key != inputReads[i].key
    ensures inputReads[i].key in TransformationsOf(engine, registry, inputReads)
    ensures TransformationsOf(engine, registry, inputReads)[inputReads[i].key]
            == TransformationOf(engine, registry, inputReads[i])
  {
    var n := |inputReads| - 1;
    if i < n {
      var prefix := inputReads[..n];
      assert prefix[i] == inputReads[i];
      forall j | i < j < |prefix| ensures prefix[j].key != prefix[i].key {
        assert prefix[j] == inputReads[j];
      }
      LastReadWins(engine, registry, prefix, i);
    }
  }

  /** Pass 1 as the source runs it: a loop that fills the map in place and
      counts the reads it went through. */
  method BuildReadTransformations(engine: Engine, registry: seq<PrimerPair>, inputReads: seq<Read>)
    returns (readTransformations: map<ReadKey, Transformation>, readCount: nat)
    ensures readTransformations == TransformationsOf(engine, registry, inputReads)
    ensures readTransformations.Keys == KeysOf(inputReads)
    ensures readCount == |inputReads|
  {
    readTransformations := map[];
    readCount := 0;
    for i := 0 to |inputReads|
      invariant readTransformations == TransformationsOf(engine, registry, inputReads[..i])
      invariant readCount == i
    {
      var read := inputReads[i];
      var primerPair := engine.getPrimerPair(registry, read);
      var oldCigar := engine.cigarFactory(read);
      var newCigar := engine.softclipPrimers(primerPair, oldCigar);
      readTransformations := readTransformations[read.key :=
        Transformation(primerPair, newCigar.referenceStart, newCigar.cigarString)];
      readCount := readCount + 1;
      assert inputReads[..i + 1][..i] == inputReads[..i];
    }
    assert inputReads[..|inputReads|] == inputReads;
  }
}
