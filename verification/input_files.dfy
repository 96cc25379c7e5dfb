/**
 * The number of parallel input streams of the corpus, as computed by
 * GraphGroup::numberOfInputFiles (graph_group.cpp:516-526). A TSV corpus has
 * `tsv-fields` columns, of which one may hold the guided alignment and one
 * the data weights; these two are not input files. Otherwise every training
 * set is one file.
 */
module InputFiles {

  /** The options numberOfInputFiles reads. An absent `guided-alignment` reads as "none", an absent `data-weighting` as "". */
  datatype InputOptions = InputOptions(
    tsv: bool,                 // tsv
    tsvFields: nat,            // tsv-fields
    guidedAlignment: string,   // guided-alignment
    dataWeighting: string,     // data-weighting
    trainSets: seq<string>)    // train-sets

  /** A TSV column holds the guided alignment. */
  predicate HasAlignmentColumn(o: InputOptions)
  {
    o.guidedAlignment != "none"
  }

  /** A TSV column holds the data weights. */
  predicate HasWeightColumn(o: InputOptions)
  {
    o.dataWeighting != ""
  }

  function Indicator(b: bool): nat
  {
    if b then 1 else 0
  }

  /** Unsigned subtraction that stops at zero. */
  function Monus(a: nat, b: nat): (r: nat)
    ensures r + b >= a && r <= a
    ensures a >= b ==> r + b == a
  {
    if a >= b then a - b else 0
  }

  /** The input-file count: the TSV columns less the alignment and weight columns, each removed only while a column is left. */
  function NumberOfInputFiles(o: InputOptions): (n: nat)
    ensures !o.tsv ==> n == |o.trainSets|
    ensures o.tsv ==> n <= o.tsvFields
  {
    if o.tsv then
      var n0 := o.tsvFields;
      var n1 := if n0 > 0 && HasAlignmentColumn(o) then n0 - 1 else n0;
      if n1 > 0 && HasWeightColumn(o) then n1 - 1 else n1
    else |o.trainSets|
  }

  /**
   * For a TSV corpus the count is the number of columns minus the special
   * columns the options announce, never going below zero: the guarded
   * decrements never wrap around.
   */
  lemma TsvCountIsFieldsLessSpecialColumns(o: InputOptions)
    requires o.tsv
    ensures NumberOfInputFiles(o) == Monus(o.tsvFields, Indicator(HasAlignmentColumn(o)) + Indicator(HasWeightColumn(o)))
  {
  }

  /** With no special column every TSV column is an input file; with both and enough columns, two fewer. */
  lemma TsvCountCases(o: InputOptions)
    requires o.tsv
    ensures !HasAlignmentColumn(o) && !HasWeightColumn(o) ==> NumberOfInputFiles(o) == o.tsvFields
    ensures HasAlignmentColumn(o) && HasWeightColumn(o) && o.tsvFields >= 2 ==> NumberOfInputFiles(o) == o.tsvFields - 2
    ensures o.tsvFields > 0 && (HasAlignmentColumn(o) || HasWeightColumn(o)) ==> NumberOfInputFiles(o) < o.tsvFields
  {
  }
}
