/** The two datasets the viewer can show, and the columns it displays for
    each. */
module Datasets {

  /** A displayed column: the row field it reads, its header text and the CSS
      class of its cells. */
  datatype Column = Column(key: string, header: string, className: string)

  /** Where a dataset lives on the rows endpoint, and its ordered columns. */
  datatype Dataset = Dataset(name: string, config: string, split: string, columns: seq<Column>)

  /** The keys of the dataset table; the page starts on `Alpaca`. */
  datatype DatasetKey = Alpaca | Bogko

  /** `DATASETS[key]`. Every dataset displays at least two columns. */
  function Descriptor(key: DatasetKey): (d: Dataset)
    ensures |d.columns| >= 2
  {
    match key
    case Alpaca =>
      Dataset("vislupus/alpaca-bulgarian-dictionary", "default", "train",
              [Column("input", "Дума (Word)", "col-word"),
               Column("instruction", "Въпрос (Question)", "col-definition"),
               Column("output", "Отговор (Answer)", "col-extra")])
    case Bogko =>
      Dataset("thebogko/bulgarian-dictionary-2024", "default", "train",
              [Column("word", "Дума (Word)", "col-word"),
               Column("tag", "Етикет (Tag)", "col-definition")])
  }

  /** The columns of the selected dataset. */
  function Columns(key: DatasetKey): seq<Column> {
    Descriptor(key).columns
  }
}
