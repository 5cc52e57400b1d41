/**
  The quote bank: the module's default export, an ordered, never modified
  list of nine records.  Each record pairs `from`, the attribution of a
  passage, with `text`, the thunk `words(passage)` that evaluates to the
  passage's word list.  Passages are written out line by line, with the
  leading newline, the eight-space indentation of every line and the
  trailing indentation before the closing backtick, so whitespace is part
  of the captured text just as in the template literals they come from.
*/
module QuoteBank {
  import opened Tokenizer

  /** One exported record: `{ from, text }`. */
  datatype QuoteRecord = QuoteRecord(from: string, text: Thunk)

  /** The exported array, in source order. */
  const Bank: seq<QuoteRecord> := [
    QuoteRecord(
      "The Wonderful Wizard of Oz by L. Frank Baum",
      Thunk(OzPassage)
    ),
    QuoteRecord(
      "The Prince by Niccolò Machiavelli",
      Thunk(PrincePassage)
    ),
    QuoteRecord(
      "War and Peace by graf Leo Tolstoy",
      Thunk(WarAndPeacePassage)
    ),
    QuoteRecord(
      "The Strange Case of Dr. Jekyll and Mr. Hyde by Robert Louis Stevenson",
      Thunk(JekyllAndHydePassage)
    ),
    QuoteRecord(
      "Alice's Adventures in Wonderland by Lewis Carroll",
      Thunk(AlicePassage)
    ),
    QuoteRecord(
      "Dracula by Bram Stoker",
      Thunk(DraculaPassage)
    ),
    QuoteRecord(
      "The Great Gatsby by F. Scott Fitzgerald",
      Thunk(GatsbyPassage)
    ),
    QuoteRecord(
      "Frankenstein; Or, The Modern Prometheus by Mary Wollstonecraft Shelley",
      Thunk(FrankensteinPassage)
    ),
    QuoteRecord(
      "Moby Dick; Or, The Whale by Herman Melville",
      Thunk(MobyDickPassage)
    )
  ]

  /** The eight-space indentation of every line of the template literals. */
  const Indent: string := "        "

  // The passages, line by line, exactly as the template literals hold them.

  const OzPassage: string :=
    "\n" +
    Indent + "It was a terrible thing to undergo, but during the year I stood there I\n" +
    Indent + "had time to think that the greatest loss I had known was the loss of my\n" +
    Indent + "heart.\n" +
    Indent

  const PrincePassage: string :=
    "\n" +
    Indent + "Upon this a question arises: whether it be better to be loved than\n" +
    Indent + "feared or feared than loved? It may be answered that one should wish to\n" +
    Indent + "be both, but, because it is difficult to unite them in one person, it\n" +
    Indent + "is much safer to be feared than loved, when, of the two, either must be\n" +
    Indent + "dispensed with.\n" +
    Indent

  const WarAndPeacePassage: string :=
    "\n" +
    Indent + "\"Pierre was right when he said one must believe in the possibility of\n" +
    Indent + "happiness in order to be happy, and now I do believe in it. Let the\n" +
    Indent + "dead bury their dead, but while one has life one must live and be\n" +
    Indent + "happy!\" thought he.\n" +
    Indent

  const JekyllAndHydePassage: string :=
    "\n" +
    Indent + "There comes an end to all things; the most capacious measure is filled\n" +
    Indent + "at last; and this brief condescension to my evil finally destroyed the\n" +
    Indent + "balance of my soul.\n" +
    Indent

  const AlicePassage: string :=
    "\n" +
    Indent + "\"All right,\" said the Cat; and this time it vanished quite slowly,\n" +
    Indent + "beginning with the end of the tail, and ending with the grin, which\n" +
    Indent + "remained some time after the rest of it had gone.\n" +
    Indent

  const DraculaPassage: string :=
    "\n" +
    Indent + "How blessed are some people, whose lives have no fears, no dreads; to\n" +
    Indent + "whom sleep is a blessing that comes nightly, and brings nothing but\n" +
    Indent + "sweet dreams.\n" +
    Indent

  const GatsbyPassage: string :=
    "\n" +
    Indent + "\"Can't repeat the past?\" he cried incredulously. \"Why of course you\n" +
    Indent + "can!\"\n" +
    "\n" +
    Indent + "He looked around him wildly, as if the past were lurking here in the\n" +
    Indent + "shadow of his house, just out of reach of his hand.\n" +
    Indent

  const FrankensteinPassage: string :=
    "\n" +
    Indent + "This state of mind preyed upon my health, which had perhaps never\n" +
    Indent + "entirely recovered from the first shock it had sustained. I shunned the\n" +
    Indent + "face of man; all sound of joy or complacency was torture to me;\n" +
    Indent + "solitude was my only consolation - deep, dark, deathlike solitude.        \n" +
    Indent

  const MobyDickPassage: string :=
    "\n" +
    Indent + "Human madness is oftentimes a cunning and most feline thing. When you\n" +
    Indent + "think it fled, it may have but become transfigured into some still\n" +
    Indent + "subtler form.\n" +
    Indent

  /** Nine records, each with a non-empty attribution, no two alike. */
  lemma BankAttributions()
    ensures |Bank| == 9
    ensures forall i :: 0 <= i < |Bank| ==> Bank[i].from != []
    ensures forall i, j :: 0 <= i < j < |Bank| ==> Bank[i].from != Bank[j].from
  {
  }

  // Each passage holds a full stop, so none is blank.

  lemma OzNotBlank()
    ensures !AllWs(OzPassage)
  {
    NotBlank(OzPassage, '.');
  }

  lemma PrinceNotBlank()
    ensures !AllWs(PrincePassage)
  {
    NotBlank(PrincePassage, '.');
  }

  lemma WarAndPeaceNotBlank()
    ensures !AllWs(WarAndPeacePassage)
  {
    NotBlank(WarAndPeacePassage, '.');
  }

  lemma JekyllAndHydeNotBlank()
    ensures !AllWs(JekyllAndHydePassage)
  {
    NotBlank(JekyllAndHydePassage, '.');
  }

  lemma AliceNotBlank()
    ensures !AllWs(AlicePassage)
  {
    NotBlank(AlicePassage, '.');
  }

  lemma DraculaNotBlank()
    ensures !AllWs(DraculaPassage)
  {
    NotBlank(DraculaPassage, '.');
  }

  lemma GatsbyNotBlank()
    ensures !AllWs(GatsbyPassage)
  {
    NotBlank(GatsbyPassage, '.');
  }

  lemma FrankensteinNotBlank()
    ensures !AllWs(FrankensteinPassage)
  {
    NotBlank(FrankensteinPassage, '.');
  }

  lemma MobyDickNotBlank()
    ensures !AllWs(MobyDickPassage)
  {
    NotBlank(MobyDickPassage, '.');
  }

  // The bank's passages, three records at a time.
  lemma PassagesNotBlank0()
    ensures forall i :: 0 <= i < 3 ==> !AllWs(Bank[i].text.text)
  {
    OzNotBlank();
    PrinceNotBlank();
    WarAndPeaceNotBlank();
  }

  lemma PassagesNotBlank1()
    ensures forall i :: 3 <= i < 6 ==> !AllWs(Bank[i].text.text)
  {
    JekyllAndHydeNotBlank();
    AliceNotBlank();
    DraculaNotBlank();
  }

  lemma PassagesNotBlank2()
    ensures forall i :: 6 <= i < 9 ==> !AllWs(Bank[i].text.text)
  {
    GatsbyNotBlank();
    FrankensteinNotBlank();
    MobyDickNotBlank();
  }

  /** No passage of the bank is empty or all whitespace. */
  lemma PassagesNotBlank()
    ensures forall i :: 0 <= i < |Bank| ==> !AllWs(Bank[i].text.text)
  {
    PassagesNotBlank0();
    PassagesNotBlank1();
    PassagesNotBlank2();
  }

  /** Every record's thunk evaluates to a non-empty list of tokens. */
  lemma BankWordLists()
    ensures forall i :: 0 <= i < |Bank| ==> Bank[i].text.Eval() != [] && AllTokens(Bank[i].text.Eval())
  {
    PassagesNotBlank();
    forall i | 0 <= i < |Bank|
      ensures Bank[i].text.Eval() != []
    {
      TokenizeEmptyIff(Bank[i].text.text);
    }
  }

  /** The trailing spaces after the last sentence of the
      Frankenstein passage produce no token, so its last word is "solitude.". */
  lemma FrankensteinLastWord()
    ensures Tokenize(FrankensteinPassage) != []
    ensures Tokenize(FrankensteinPassage)[|Tokenize(FrankensteinPassage)| - 1] == "solitude."
  {
    var front :=
      "\n" +
      Indent + "This state of mind preyed upon my health, which had perhaps never\n" +
      Indent + "entirely recovered from the first shock it had sustained. I shunned the\n" +
      Indent + "face of man; all sound of joy or complacency was torture to me;\n" +
      Indent + "solitude was my only consolation - deep, dark, deathlike";
    var tail := "        \n" + Indent;
    assert FrankensteinPassage == front + [' '] + "solitude." + tail;
    TrailingWord(front, ' ', "solitude.", tail);
  }
}
