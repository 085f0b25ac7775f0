/** Outcome types shared by every part of the model. */
module Results {

  datatype Option<T> = None | Some(value: T)

  /** The ways the two scripts stop with an exception, named after their cause. */
  datatype Error =
    | EmptyInput                           // `next(reader)` on a file with no header row
    | MissingColumn(column: nat)           // `row[column]` on a row that is too short
    | MalformedLocus(locus: string)        // a locus string without ':' or without '-'
    | InvalidInteger(text: string)         // `int(text)` rejects its argument
    | SequenceBeforeHeader                 // FASTA sequence lines before any '>' header
    | NoSuitableChromosome(locus: string)  // no chromosome is longer than the locus

  datatype Result<T> = Ok(value: T) | Err(error: Error)
}
