/**
 Turning rows of the primer manifest into registered primer pairs.

 A row carries 1-based start columns and the primer sequences themselves; the
 registered pair carries 0-based half-open intervals whose lengths are the
 primers' lengths. The sense primer starts at its column (minus one, for the
 change of base); the antisense primer ends at its column.
 */
module PrimerManifest {
  import opened Types

  /** One manifest row, already split into fields and with the two start
      columns already converted to integers. */
  datatype ManifestRow = ManifestRow(
    targetId: string,
    chr: string,
    senseStart: int,
    senseSequence: string,
    antisenseStart: int,
    antisenseSequence: string)

  /** The primer pair a manifest row registers. */
  function PrimerPairOf(row: ManifestRow): (p: PrimerPair)
    ensures p.PrimerPair?
    ensures p.targetId == row.targetId && p.chrom == "chr" + row.chr
    ensures p.sense.start == row.senseStart - 1
    ensures p.sense.Length() == |row.senseSequence|
    ensures p.antisense.end == row.antisenseStart
    ensures p.antisense.Length() == |row.antisenseSequence|
    ensures p.sense.start <= p.sense.end && p.antisense.start <= p.antisense.end
  {
    var senseStart := row.senseStart - 1;
    var senseEnd := senseStart + |row.senseSequence|;
    var antisenseStart := row.antisenseStart;
    var antisenseEnd := antisenseStart - |row.antisenseSequence|;
    PrimerPair(row.targetId, "chr" + row.chr,
               Interval(senseStart, senseEnd),
               Interval(antisenseEnd, antisenseStart))
  }

  /** The primer pairs registered from a manifest, in row order. */
  function RegistryOf(rows: seq<ManifestRow>): seq<PrimerPair>
  {
    seq(|rows|, i requires 0 <= i < |rows| => PrimerPairOf(rows[i]))
  }

  /** Registers one primer pair per manifest row, in file order; the result
      stands for the process-wide registry the rows are added to. */
  method InitializePrimerPairs(rows: seq<ManifestRow>) returns (registry: seq<PrimerPair>)
    ensures |registry| == |rows|
    ensures forall i :: 0 <= i < |rows| ==> registry[i] == PrimerPairOf(rows[i])
    ensures registry == RegistryOf(rows)
  {
    registry := [];
    for i := 0 to |rows|
      invariant |registry| == i
      invariant forall k :: 0 <= k < i ==> registry[k] == PrimerPairOf(rows[k])
    {
      registry := registry + [PrimerPairOf(rows[i])];
    }
  }

  /** The manifest columns a primer pair still determines: everything but the
      primer bases themselves, of which only the lengths survive. */
  datatype Coordinates = Coordinates(
    targetId: string,
    chr: string,
    senseStart: int,
    senseLength: int,
    antisenseStart: int,
    antisenseLength: int)

  function CoordinatesOf(row: ManifestRow): Coordinates
  {
    Coordinates(row.targetId, row.chr, row.senseStart, |row.senseSequence|,
                row.antisenseStart, |row.antisenseSequence|)
  }

  /** Reads the manifest columns back from a registered pair: undoes the
      "chr" prefix and the change from 1-based columns to 0-based intervals.
      Fails for the null pair and for a chromosome without the prefix. */
  function ManifestCoordinates(p: PrimerPair): (c: Option<Coordinates>)
    ensures c.Some? ==> p.PrimerPair? && p.chrom == "chr" + c.value.chr
  {
    if p.NullPrimerPair? || |p.chrom| < 3 || p.chrom[..3] != "chr" then None
    else
      assert p.chrom == "chr" + p.chrom[3..];
      Some(Coordinates(p.targetId, p.chrom[3..], p.sense.start + 1, p.sense.Length(),
                       p.antisense.end, p.antisense.Length()))
  }

  /** Registering a row loses nothing but the primer bases: the row's
      identifier, chromosome, start columns and primer lengths can be read
      back from the registered pair. */
  lemma CoordinatesRoundTrip(row: ManifestRow)
    ensures ManifestCoordinates(PrimerPairOf(row)) == Some(CoordinatesOf(row))
  {
    var p := PrimerPairOf(row);
    assert p.chrom[..3] == "chr" && p.chrom[3..] == row.chr;
  }

  /** Only the lengths of the primer sequences matter: rows that agree on
      every other column register the same pair. */
  lemma SameCoordinatesSamePair(a: ManifestRow, b: ManifestRow)
    requires CoordinatesOf(a) == CoordinatesOf(b)
    ensures PrimerPairOf(a) == PrimerPairOf(b)
  {
  }

  /** The registry's well-formedness rule (positive interval lengths) holds of
      a registered row exactly when both primer sequences are non-empty. */
  predicate PositiveIntervals(p: PrimerPair)
  {
    p.PrimerPair? && p.sense.Length() > 0 && p.antisense.Length() > 0
  }

  lemma PositiveIntervalsIff(row: ManifestRow)
    ensures PositiveIntervals(PrimerPairOf(row))
            <==> |row.senseSequence| > 0 && |row.antisenseSequence| > 0
  {
  }
}
