/** `build_prompt`: a fixed instruction block for the model, followed by the
    schema text and the user's question, both embedded verbatim. */
module Prompt {

  /** The fixed part of the prompt up to the schema: the behavioural rules for
      the model and the static sample rows. */
  const Instructions: string :=
    "\n" +
    "You are a PostgreSQL SQL expert.\n" +
    "\n" +
    "ONLY generate a valid, safe **SELECT** SQL query based on the schema below and the user's question.\n" +
    "\n" +
    "DO NOT generate queries that modify data.\n" +
    "DO NOT use made-up column names.\n" +
    "Use **only the exact column names** as given in the schema, including their case and spacing.\n" +
    "Always wrap column names in **double quotes** (e.g., \"Transaction Type\", \"Account Name\") to preserve exact names.\n" +
    "DO NOT rename columns or change them to snake_case or lowercase.\n" +
    "\n" +
    "DO NOT include SQL labels or explanations \U{2014} only output the raw query.\n" +
    "\n" +
    "The column names are \"Date\",\"description\",\"amount\",\"Transaction Type\",\"category\",\"Account Name\" use this exact case and spacing.\n" +
    "do not add under_score or change the case of the column names.\n" +
    "Here are sample rows to help you understand the data:\n" +
    "\"Date\"\t\"description\"\t\"amount\"\t\"Transaction Type\"\t\"category\"\t\"Account Name\"\n" +
    "01/01/2018\tAmazon\t11.11\tdebit\tShopping\tPlatinum Card\n" +
    "01/02/2018\tMortgage Payment\t1247.44\tdebit\tMortgage & Rent\tChecking\n" +
    "01/02/2018\tThai Restaurant\t24.22\tdebit\tRestaurants\tSilver Card\n" +
    "01/03/2018\tCredit Card Payment\t2298.09\tcredit\tCredit Card Payment\tPlatinum Card\n" +
    "01/04/2018\tNetflix\t11.76\tdebit\tMovies & DVDs\tPlatinum Card\n" +
    "\n" +
    "Schema:\n"

  /** The prompt for one question. */
  function BuildPrompt(question: string, schema: string): string {
    Instructions + schema + "\n\nQuestion: " + question + "\nSQL:\n"
  }

  /** The schema and the question stand verbatim at fixed places of the
      prompt, after the instruction block. */
  lemma PromptEmbedsInputs(question: string, schema: string)
    ensures var p, n := BuildPrompt(question, schema), |Instructions| + |schema|;
      |p| == n + 12 + |question| + 6 &&
      p[..|Instructions|] == Instructions &&
      p[|Instructions|..n] == schema &&
      p[n..n + 12] == "\n\nQuestion: " &&
      p[n + 12..n + 12 + |question|] == question &&
      p[n + 12 + |question|..] == "\nSQL:\n"
  {
    FiveParts(Instructions, schema, "\n\nQuestion: ", question, "\nSQL:\n");
  }

  /** Each part of a five-part concatenation is the slice between its
      neighbours' offsets. */
  lemma FiveParts(a: string, b: string, c: string, d: string, e: string)
    ensures var p, i, j, k, l := a + b + c + d + e, |a|, |a| + |b|, |a| + |b| + |c|, |a| + |b| + |c| + |d|;
      |p| == l + |e| &&
      p[..i] == a && p[i..j] == b && p[j..k] == c && p[k..l] == d && p[l..] == e
  {
  }

  /** Within one session the schema is fixed, and then the prompt determines
      the question: different questions give different prompts. */
  lemma PromptDeterminesQuestion(q1: string, q2: string, schema: string)
    requires BuildPrompt(q1, schema) == BuildPrompt(q2, schema)
    ensures q1 == q2
  {
    PromptEmbedsInputs(q1, schema);
    PromptEmbedsInputs(q2, schema);
  }
}
