/**
  The App component's state and its event handlers (src/App.js). Each `useState` pair is a
  field of `Store`; each handler is a method whose `modifies` clause names exactly the
  setters it calls, so every other field is unchanged by construction.
 */
module App {
  import opened Wrappers
  import opened Text
  import opened Sequences
  import opened Records
  import Classifier
  import Views

  /** The file picked in a file input: its `name` and MIME `type`. */
  datatype FileInfo = FileInfo(name: string, mimeType: string)

  /**
    A parsed backup file. A field is None when the parsed object lacks it (or holds a falsy
    value); the whole backup is None when the text does not parse.
   */
  datatype Backup = Backup(receipts: Option<seq<Receipt>>, categories: Option<Registry>)

  /** The three screens App renders. */
  datatype Screen = Dashboard | SubCategoryList | ReceiptList

  /** The draft fields of the receipt form. */
  datatype Draft = Draft(
    title: string, amount: string, date: string, dueDate: string,
    fileName: string, fileType: string, preview: Option<string>)

  const EmptyDraft := Draft("", "", "", "", "", "", None)

  /** The title used when neither a title nor a file name was given. */
  const FallbackTitle := "Απόδειξη"

  /** JavaScript truthiness of a cursor field: null and "" are both false. */
  predicate Truthy(o: Option<string>): (b: bool)
    ensures b ==> o.Some? && |o.value| > 0
    ensures !b ==> o == None || o == Some("")
  {
    o.Some? && o.value != ""
  }

  /** Which screen App renders for a cursor: the dashboard, a category's subcategories, or a receipt list. */
  function ScreenOf(cat: Option<string>, sub: Option<string>): (s: Screen)
    ensures s == Dashboard <==> !Truthy(cat)
    ensures s == ReceiptList <==> Truthy(cat) && Truthy(sub)
  {
    if !Truthy(cat) then Dashboard
    else if !Truthy(sub) then SubCategoryList
    else ReceiptList
  }

  /** `categories[cat] || []`. */
  function SubCategoriesOf(reg: Registry, cat: string): (r: seq<string>)
    ensures cat in reg ==> r == reg[cat]
    ensures forall x :: x in r ==> cat in reg && x in reg[cat]
  {
    if cat in reg then reg[cat] else []
  }

  /** `Array.from(new Set([...list, name]))`. */
  function WithSubCategory(list: seq<string>, name: string): (r: seq<string>)
    ensures name in r && NoDup(r)
  {
    DedupSnoc(list, name);
    Dedup(list + [name])
  }

  /**
    The new subcategory list is the old one with duplicates dropped (first occurrences kept, in
    order), and `name` appended when it was not there; a list without duplicates is kept as is.
   */
  lemma WithSubCategorySpec(list: seq<string>, name: string)
    ensures WithSubCategory(list, name) == if name in list then Dedup(list) else Dedup(list) + [name]
    ensures NoDup(list) ==> WithSubCategory(list, name) == if name in list then list else list + [name]
  {
    DedupSnoc(list, name);
    if NoDup(list) {
      DedupOfNoDup(list);
    }
  }

  /** Adding the same subcategory name twice is the same as adding it once. */
  lemma WithSubCategoryIdempotent(list: seq<string>, name: string)
    ensures WithSubCategory(WithSubCategory(list, name), name) == WithSubCategory(list, name)
  {
    var once := WithSubCategory(list, name);
    WithSubCategorySpec(once, name);
  }

  /** No category lists a subcategory twice. */
  ghost predicate RegistryNoDup(reg: Registry) {
    forall c :: c in reg ==> NoDup(reg[c])
  }

  /** The built-in registry has no duplicate subcategories. */
  lemma DefaultRegistryNoDup()
    ensures RegistryNoDup(DefaultRegistry)
  {
  }

  /**
    The title of a new receipt: the trimmed title, else the file name, else the fallback label.
    It is never empty.
   */
  function ReceiptTitle(title: string, fileName: string): (t: string)
    ensures t != ""
    ensures !AllWhitespace(title) ==> t == Trim(title)
    ensures AllWhitespace(title) && fileName != "" ==> t == fileName
    ensures AllWhitespace(title) && fileName == "" ==> t == FallbackTitle
  {
    TrimEmptyIff(title);
    var trimmed := Trim(title);
    if trimmed != "" then trimmed
    else if fileName != "" then fileName
    else FallbackTitle
  }

  /** `amount ? Number(amount) : 0`; `toNumber` is JavaScript's `Number` on strings. */
  function AmountOf(text: string, toNumber: string -> Amount): (a: Amount)
    ensures text == "" ==> a == Num(0.0)
    ensures text != "" ==> a == toNumber(text)
  {
    if text == "" then Num(0.0) else toNumber(text)
  }

  class Store {
    var receipts: seq<Receipt>
    var categories: Registry
    var currentCategory: Option<string>
    var currentSubCategory: Option<string>
    var newCategory: string
    var newSubCategory: string
    var title: string
    var amount: string
    var date: string
    var dueDate: string
    var fileName: string
    var fileType: string
    var preview: Option<string>
    var search: string

    /** The draft fields of the receipt form, together. */
    function DraftOf(): Draft
      reads this
    {
      Draft(title, amount, date, dueDate, fileName, fileType, preview)
    }

    /** The screen App currently renders. */
    function CurrentScreen(): Screen
      reads this
    {
      ScreenOf(currentCategory, currentSubCategory)
    }

    /** The state of a freshly mounted App: no receipts, the built-in registry, the dashboard, empty inputs. */
    constructor ()
      ensures receipts == [] && categories == DefaultRegistry
      ensures currentCategory == None && currentSubCategory == None
      ensures CurrentScreen() == Dashboard
      ensures newCategory == "" && newSubCategory == "" && search == ""
      ensures DraftOf() == EmptyDraft
      ensures RegistryNoDup(categories)
    {
      receipts := [];
      categories := DefaultRegistry;
      currentCategory, currentSubCategory := None, None;
      newCategory, newSubCategory := "", "";
      title, amount, date, dueDate := "", "", "", "";
      fileName, fileType, preview := "", "", None;
      search := "";
      DefaultRegistryNoDup();
    }

    /**
      `addCategory`: a blank name or one already in the registry changes nothing; otherwise the
      trimmed name becomes a category with no subcategories and the input is cleared.
     */
    method AddCategory()
      modifies this`categories, this`newCategory
      ensures var name := Trim(old(newCategory));
        if AllWhitespace(old(newCategory)) || name in old(categories) then
          categories == old(categories) && newCategory == old(newCategory)
        else
          && categories.Keys == old(categories).Keys + {name}
          && categories[name] == []
          && (forall c :: c in old(categories) ==> categories[c] == old(categories)[c])
          && newCategory == ""
      ensures old(RegistryNoDup(categories)) ==> RegistryNoDup(categories)
    {
      var name := Trim(newCategory);
      TrimEmptyIff(newCategory);
      if name == "" || name in categories {
        return;
      }
      categories := categories[name := []];
      newCategory := "";
    }

    /**
      `addSubCategory`: a blank name or a falsy current category changes nothing. Otherwise only
      the current category's entry changes (it is created when absent): it becomes the old list
      without duplicates, with the trimmed name added once. The input is cleared.
     */
    method AddSubCategory()
      modifies this`categories, this`newSubCategory
      ensures var name := Trim(old(newSubCategory));
        if AllWhitespace(old(newSubCategory)) || !Truthy(currentCategory) then
          categories == old(categories) && newSubCategory == old(newSubCategory)
        else
          var cat := currentCategory.value;
          && categories.Keys == old(categories).Keys + {cat}
          && categories[cat] == WithSubCategory(SubCategoriesOf(old(categories), cat), name)
          && name in categories[cat] && NoDup(categories[cat])
          && (forall c :: c in old(categories) && c != cat ==> categories[c] == old(categories)[c])
          && newSubCategory == ""
      ensures old(RegistryNoDup(categories)) ==> RegistryNoDup(categories)
    {
      var name := Trim(newSubCategory);
      TrimEmptyIff(newSubCategory);
      if name == "" || !Truthy(currentCategory) {
        return;
      }
      var cat := currentCategory.value;
      categories := categories[cat := WithSubCategory(SubCategoriesOf(categories, cat), name)];
      newSubCategory := "";
    }

    /**
      `addReceipt`: without a truthy category and subcategory nothing changes. Otherwise a receipt
      built from the cursor and the draft goes to the front of the list, the rest of the list is
      kept as it was, and the draft is cleared. `id` and `createdAt` are the clock readings
      (`Date.now()` and `new Date()`), `toNumber` is `Number`.
     */
    method AddReceipt(id: int, createdAt: int, toNumber: string -> Amount)
      modifies this`receipts, this`title, this`amount, this`date, this`dueDate,
               this`fileName, this`fileType, this`preview
      ensures if !Truthy(currentCategory) || !Truthy(currentSubCategory) then
          receipts == old(receipts) && DraftOf() == old(DraftOf())
        else
          && |receipts| == |old(receipts)| + 1
          && receipts[1..] == old(receipts)
          && receipts[0].category == currentCategory.value
          && receipts[0].subCategory == currentSubCategory.value
          && receipts[0].title == ReceiptTitle(old(title), old(fileName))
          && receipts[0].amount == AmountOf(old(amount), toNumber)
          && receipts[0] == Receipt(id, ReceiptTitle(old(title), old(fileName)),
                                    currentCategory.value, currentSubCategory.value,
                                    AmountOf(old(amount), toNumber), old(date), old(dueDate),
                                    old(fileName), old(fileType), old(preview), createdAt)
          && Views.TotalAmount(receipts) == Views.AmountValue(receipts[0].amount) + Views.TotalAmount(old(receipts))
          && DraftOf() == EmptyDraft
    {
      if !Truthy(currentCategory) || !Truthy(currentSubCategory) {
        return;
      }
      var t := ReceiptTitle(title, fileName);
      var r := Receipt(id, t, currentCategory.value, currentSubCategory.value,
                       AmountOf(amount, toNumber), date, dueDate, fileName, fileType, preview, createdAt);
      assert Views.TotalAmount([r] + receipts) == Views.AmountValue(r.amount) + Views.TotalAmount(receipts) by {
        Views.TotalAmountCons(r, receipts);
      }
      receipts := [r] + receipts;
      assert receipts[0] == r && receipts[1..] == old(receipts);
      ClearDraft();
    }

    /** The seven `set…("")` / `setPreview(null)` calls that end `addReceipt`. */
    method ClearDraft()
      modifies this`title, this`amount, this`date, this`dueDate, this`fileName, this`fileType, this`preview
      ensures DraftOf() == EmptyDraft
    {
      title := "";
      amount := "";
      date := "";
      dueDate := "";
      fileName := "";
      fileType := "";
      preview := None;
    }

    /**
      The synchronous part of `handleFileChange`: with no file picked nothing changes. Otherwise
      the file's name and type are recorded; when the classifier recognises the name the cursor
      jumps to its suggestion, else the cursor stays. A non-image clears the preview; an image
      keeps the old preview until the read completes (`PreviewLoaded`).
     */
    method HandleFileChange(selected: Option<FileInfo>)
      modifies this`fileName, this`fileType, this`currentCategory, this`currentSubCategory, this`preview
      ensures selected.None? ==>
        && fileName == old(fileName) && fileType == old(fileType) && preview == old(preview)
        && currentCategory == old(currentCategory) && currentSubCategory == old(currentSubCategory)
      ensures selected.Some? ==>
        && fileName == selected.value.name
        && fileType == selected.value.mimeType
        && preview == (if StartsWith(selected.value.mimeType, "image/") then old(preview) else None)
        && match Classifier.AiCategorize(selected.value.name)
           case Some(s) => currentCategory == Some(s.cat) && currentSubCategory == Some(s.sub)
           case None => currentCategory == old(currentCategory) && currentSubCategory == old(currentSubCategory)
    {
      if selected.None? {
        return;
      }
      var file := selected.value;
      fileName := file.name;
      fileType := file.mimeType;
      var ai := Classifier.AiCategorize(file.name);
      if ai.Some? {
        currentCategory := Some(ai.value.cat);
        currentSubCategory := Some(ai.value.sub);
      }
      if !StartsWith(file.mimeType, "image/") {
        preview := None;
      }
    }

    /** The completion callback of the image read: the preview becomes the reader's result. */
    method PreviewLoaded(result: Option<string>)
      modifies this`preview
      ensures preview == result
    {
      preview := result;
    }

    /** The data `exportBackup` serialises: the receipts list and the registry. */
    function ExportBackup(): (b: Backup)
      reads this
      ensures b.receipts == Some(receipts) && b.categories == Some(categories)
    {
      Backup(Some(receipts), Some(categories))
    }

    /**
      The state change of `importBackup`: a backup that did not parse changes nothing; otherwise
      the receipts are replaced exactly when the backup has receipts, and the registry exactly
      when it has categories, each independently of the other.
     */
    method ImportBackup(parsed: Option<Backup>)
      modifies this`receipts, this`categories
      ensures parsed.None? ==> receipts == old(receipts) && categories == old(categories)
      ensures parsed.Some? ==>
        && receipts == parsed.value.receipts.GetOr(old(receipts))
        && categories == parsed.value.categories.GetOr(old(categories))
    {
      if parsed.None? {
        return;
      }
      var data := parsed.value;
      if data.receipts.Some? {
        receipts := data.receipts.value;
      }
      if data.categories.Some? {
        categories := data.categories.value;
      }
    }

    /** Clicking a category card on the dashboard. */
    method SelectCategory(cat: string)
      modifies this`currentCategory
      ensures currentCategory == Some(cat)
      ensures cat != "" && !Truthy(currentSubCategory) ==> CurrentScreen() == SubCategoryList
    {
      currentCategory := Some(cat);
    }

    /** The back button of the subcategory screen: the category is cleared, so the dashboard shows. */
    method BackToDashboard()
      modifies this`currentCategory
      ensures currentCategory == None
      ensures CurrentScreen() == Dashboard
    {
      currentCategory := None;
    }

    /** Clicking a subcategory card. */
    method SelectSubCategory(sub: string)
      modifies this`currentSubCategory
      ensures currentSubCategory == Some(sub)
      ensures Truthy(currentCategory) && sub != "" ==> CurrentScreen() == ReceiptList
    {
      currentSubCategory := Some(sub);
    }

    /** The back button of the receipt list: the subcategory is cleared. */
    method BackToSubCategories()
      modifies this`currentSubCategory
      ensures currentSubCategory == None
      ensures Truthy(currentCategory) ==> CurrentScreen() == SubCategoryList
    {
      currentSubCategory := None;
    }

    /** The new-category input. */
    method SetNewCategory(value: string)
      modifies this`newCategory
      ensures newCategory == value
    {
      newCategory := value;
    }

    /** The new-subcategory input. */
    method SetNewSubCategory(value: string)
      modifies this`newSubCategory
      ensures newSubCategory == value
    {
      newSubCategory := value;
    }

    /** The title input of the receipt form. */
    method SetTitle(value: string)
      modifies this`title
      ensures title == value
    {
      title := value;
    }

    /** The amount input of the receipt form. */
    method SetAmount(value: string)
      modifies this`amount
      ensures amount == value
    {
      amount := value;
    }

    /** The date input of the receipt form. */
    method SetDate(value: string)
      modifies this`date
      ensures date == value
    {
      date := value;
    }

    /** The due-date input of the receipt form. */
    method SetDueDate(value: string)
      modifies this`dueDate
      ensures dueDate == value
    {
      dueDate := value;
    }

    /** The search input of the receipt list. */
    method SetSearch(value: string)
      modifies this`search
      ensures search == value
    {
      search := value;
    }
  }

  /** Restoring a backup that was just exported leaves the receipts and the registry as they were. */
  method BackupRoundTrip(store: Store)
    modifies store
    ensures store.receipts == old(store.receipts) && store.categories == old(store.categories)
  {
    var backup := store.ExportBackup();
    store.ImportBackup(Some(backup));
  }

  /** A registry that differs from `prev` only in the entry `cat`, which is `v`, is `prev` with that entry set. */
  lemma RegistryUpdate(reg: Registry, prev: Registry, cat: string, v: seq<string>)
    requires reg.Keys == prev.Keys + {cat} && reg[cat] == v
    requires forall c :: c in prev && c != cat ==> reg[c] == prev[c]
    ensures reg == prev[cat := v]
  {
  }

  /**
    Typing the same subcategory name and pressing add twice leaves the registry as one press
    does: the name's `Set` deduplication makes the second press change nothing.
   */
  method AddSubCategoryTwice(store: Store, name: string)
    modifies store`categories, store`newSubCategory
    ensures var cat := store.currentCategory;
      if AllWhitespace(name) || !Truthy(cat) then store.categories == old(store.categories)
      else store.categories == old(store.categories)[cat.value := WithSubCategory(SubCategoriesOf(old(store.categories), cat.value), Trim(name))]
  {
    var before := store.categories;
    store.SetNewSubCategory(name);
    store.AddSubCategory();
    if AllWhitespace(name) || !Truthy(store.currentCategory) {
      store.SetNewSubCategory(name);
      store.AddSubCategory();
      return;
    }
    var cat := store.currentCategory.value;
    var once := WithSubCategory(SubCategoriesOf(before, cat), Trim(name));
    RegistryUpdate(store.categories, before, cat, once);
    store.SetNewSubCategory(name);
    store.AddSubCategory();
    WithSubCategoryIdempotent(SubCategoriesOf(before, cat), Trim(name));
    RegistryUpdate(store.categories, before, cat, once);
  }

  /**
    A backup holding only receipts replaces the receipts and keeps the registry; adding a
    subcategory twice adds it once.
   */
  method ImportAndSubCategoryScenario(store: Store, rs: seq<Receipt>)
    modifies store
    ensures store.receipts == rs
    ensures store.categories == old(store.categories)[Bills := WithSubCategory(SubCategoriesOf(old(store.categories), Bills), "Gas")]
    ensures "Gas" in store.categories[Bills] && NoDup(store.categories[Bills])
  {
    TrimFixed("Gas");
    TrimEmptyIff("Gas");
    ghost var before := store.categories;
    store.ImportBackup(Some(Backup(Some(rs), None)));
    store.SelectCategory(Bills);
    assert store.receipts == rs && store.categories == before && store.currentCategory == Some(Bills);
    AddSubCategoryTwice(store, "Gas");
    var once := WithSubCategory(SubCategoriesOf(before, Bills), "Gas");
    assert store.categories == before[Bills := once];
    assert store.categories[Bills] == once;
  }
}
