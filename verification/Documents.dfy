/**
 Folding several keys into one document, and the two limits a key list is held to.

 Parsing, merging and rendering two or more documents happens in the engine, which is not part
 of this model: it is the parameter `fold`, about which nothing is assumed.
 */
module Documents {
  import opened Wrappers

  /** The most keys one prefix read folds into a document. */
  const MOST_KEYS: nat := 512

  datatype Pair = Pair(key: string, text: string)

  /** Parse, merge in order, render; `None` when any of the three refuses. */
  type Fold = seq<Pair> -> Option<string>

  predicate WithinKeyBudget(matched: nat): (r: bool)
    ensures r <==> matched <= 512
  {
    matched <= MOST_KEYS
  }

  predicate UnderPrefix(key: string, prefix: string): (r: bool)
    ensures r <==> |prefix| <= |key| && key[..|prefix|] == prefix
  {
    prefix <= key
  }

  /** The one document a read returns. A single document is passed through byte for byte. */
  function Merged(documents: seq<Pair>, fold: Fold): (r: Option<string>) {
    if documents == [] then None
    else if |documents| == 1 then Some(documents[0].text)
    else fold(documents)
  }

  /** One document is itself, byte for byte, whatever merging would make of it; none is no document. */
  lemma OneIsItself(documents: seq<Pair>, fold: Fold)
    ensures |documents| == 1 ==> Merged(documents, fold) == Some(documents[0].text)
    ensures documents == [] ==> Merged(documents, fold) == None
    ensures |documents| > 1 ==> Merged(documents, fold) == fold(documents)
  {
  }
}
