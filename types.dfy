/**
 The values that flow through the clipper's orchestration layer: primer pairs
 (as registered from the manifest), reads, alignments, the per-read
 transformation computed in the first pass, and the five read-handler stages.

 The primer-matching and CIGAR-rewriting engine is not part of this model; it
 enters as the three functions of `Engine`, about which nothing is assumed.
 */
module Types {

  datatype Option<T> = None | Some(value: T)

  /** A half-open interval [start, end) of 0-based reference coordinates. */
  datatype Interval = Interval(start: int, end: int) {
    function Length(): int { end - start }
  }

  /** An amplicon definition, or the sentinel that stands for "no match". */
  datatype PrimerPair =
    | NullPrimerPair
    | PrimerPair(targetId: string, chrom: string, sense: Interval, antisense: Interval)

  /** The identity of a read: query name, mate-in-pair flag and strand, encoded
      by the read wrapper (its encoding is not part of this model). */
  type ReadKey = string

  /** One alignment record, as seen by the orchestration layer. */
  datatype Read = Read(
    key: ReadKey,
    mateKey: ReadKey,
    chrom: string,
    referenceStart: int,
    cigarString: string)

  /** An alignment: its reference start and its CIGAR. */
  datatype Cigar = Cigar(referenceStart: int, cigarString: string)

  /** What the first pass records for a read: its matched primer pair, and the
      reference start and CIGAR of its soft-clipped alignment. */
  datatype Transformation = Transformation(
    primerPair: PrimerPair,
    referenceStart: int,
    cigarString: string)

  /** The mate transformation used when a read's mate was never seen. */
  const NullTransformation: Transformation := Transformation(NullPrimerPair, 0, "")

  /** The read-handler stages the clipper chains together. */
  datatype Handler =
    | StatsHandler
    | ExcludeNonMatchedReadHandler
    | AddTagsReadHandler
    | TransformReadHandler
    | WriteReadHandler

  /** A stage's answer for one read: go on to the next stage, or stop
      processing this read. */
  datatype Signal = Continue | Stop

  /** The primer-matching and soft-clipping engine, left uninterpreted:
      `getPrimerPair` matches a read against the registered primer pairs,
      `cigarFactory` builds a read's alignment, `softclipPrimers` rewrites an
      alignment for a primer pair. */
  datatype Engine = Engine(
    getPrimerPair: (seq<PrimerPair>, Read) -> PrimerPair,
    cigarFactory: Read -> Cigar,
    softclipPrimers: (PrimerPair, Cigar) -> Cigar)
}
