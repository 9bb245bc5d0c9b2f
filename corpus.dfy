/**
 * Shared vocabulary of the pipeline: the reserved unknown-token marker and a
 * labelled document as the loader hands it over (tokens already lowercased and
 * stopword-filtered; the label is the star rating minus one).
 */
module Corpus {

  /** The reserved marker that stands for every token outside the vocabulary. */
  const Unk: string := "<UNK>"

  /** A labelled document: its token sequence and its class label. */
  datatype Example = Example(document: seq<string>, goldLabel: int)
}
