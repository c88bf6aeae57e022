/** The application's data: receipts and the category registry (src/App.js). */
module Records {
  import opened Wrappers

  /**
    A receipt amount as JavaScript holds it after `Number(...)`: a number, or NaN when the
    typed text was not numeric. Numbers are exact reals here.
   */
  datatype Amount = Num(value: real) | NaN

  /**
    One saved receipt. `id` and `createdAt` are clock readings (milliseconds), `date` and
    `dueDate` the text of the date inputs ("" when not filled in), `filePreview` the data URL
    of an attached image.
   */
  datatype Receipt = Receipt(
    id: int,
    title: string,
    category: string,
    subCategory: string,
    amount: Amount,
    date: string,
    dueDate: string,
    fileName: string,
    fileType: string,
    filePreview: Option<string>,
    createdAt: int)

  /** Category name to its subcategory names, in the order they were added. */
  type Registry = map<string, seq<string>>

  const Bills := "Λογαριασμοί"
  const Loans := "Δάνεια"

  /** The registry a new installation starts from. */
  const DefaultRegistry: Registry := map[
    Bills := ["Ρεύμα", "Νερό", "Τηλέφωνο", "Internet"],
    Loans := ["Στεγαστικό", "Καταναλωτικό", "Κάρτες"]]
}
