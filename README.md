# TDarkRAG core, modelled in Dafny

TDarkRAG turns a folder of PDF and HTML pages about a protein into a
Wikipedia-style page. It does this with a retrieve-then-generate pipeline
(`scripts/RAG.py`). It then grades the page against the real Wikipedia page
with two GEval scorers (`scripts/evaluation.py`), and it analyses the
accumulated grades (`scripts/analysis.py`). Embedding, retrieval, generation
and scoring are hosted services. This model covers the deterministic code
around them:

- **Answer persistence** (`rag.dfy`). The question becomes a file name: every
  character that is not an alphanumeric, a space, `_` or `-` is replaced by
  `_`, and `.md` is appended. The file holds `# Wikipedia page\n` followed by
  the answer, unchanged. `SaveResponseToFile` is a method on a `FileStore`
  object, which stands for the directories and files on disk.
- **Loader dispatch** (`rag.dfy`). `LoadDocumentsFromFolder` walks the folder
  listing in a loop. Names ending `.pdf` go to the PDF loader. Names ending
  `.html` go to the HTML loader. Every other name gives one
  `Unsupported format: ` notice. The two loaders are opaque function
  parameters from a path to documents. The method is proved against the
  specification functions `LoadedDocuments` and `Notices`.
- **Vector-store guard** (`rag.dfy`). Only `"InMemory"` is accepted. Any other
  value aborts the run before anything is loaded.
- **Evaluation log** (`evaluation.dfy`). The `EvaluationLog` class holds the
  CSV rows as a `seq<seq<string>>`. `Append` does nothing when logging is off.
  On an empty log it writes the header
  `Topic, GEval 4o score, GEval 4o-mini score` and then the data row.
  Otherwise it appends only the data row. The lemmas show that repeated runs
  from an empty log leave one header, first, followed by one row per run in
  call order.
- **Evaluation report** (`evaluation.dfy`). The report goes to
  `"[Eval]" + to_be_evaluated`. It holds the page text followed by a footer
  that starts with `## Evaluation\n`. Scores and reasons are opaque inputs,
  carried as the text `str()` gives them.
- **Analysis tables** (`analysis.dfy`). A data frame is a sequence of column
  labels plus rows keyed by label. `AddProteinAbbreviations` fills the
  `Abbreviation` column from the fixed 15-entry lookup, with a missing value
  for unknown topics. It then orders the columns as `Topic`, `Abbreviation`,
  then the rest in their original order. It is idempotent. `PlotBoxplots`
  models the filter and the empty-table check of `plot_boxplots`. `"all"` in
  any letter case keeps every row. Any other value keeps the rows whose
  `k_chunks` equals `int(value)`, in order. An empty result gives the
  `No data available` notice and no plot. Otherwise both boxplots are drawn,
  and if asked they are saved as `boxplots_k<value>.png`.

The report's 4o-mini line repeats the gpt-4o score and reason, while the CSV
row logs the gpt-4o-mini score. This is recorded under Findings: the footer as
written is modelled and its defect proved (`FooterAsWritten`), and the report
that `CalculateGevalCorrectness` writes uses the corrected `Footer`.

The report path puts `[Eval]` in front of the whole `to_be_evaluated` path,
not in front of the file name. For `out/x.md` the report therefore goes to
`[Eval]out/x.md`. The model keeps that path exactly.

## Model

| member | source | states |
|---|---|---|
| `Rag.SanitizedStem` | scripts/RAG.py:41 | Same length as the question. Every character is alphanumeric, space, `_` or `-`. At each position a kept character is unchanged and any other becomes `_`. |
| `Rag.SanitizedFileName` | scripts/RAG.py:41 | The file name has length `\|question\| + 3` and ends with `.md`. Each earlier position is the sanitised question character. |
| `Rag.StemFixedPoint` | scripts/RAG.py:41 | Sanitising leaves a string unchanged if and only if every character is already allowed. |
| `Rag.StemIdempotent` | scripts/RAG.py:41 | Sanitising an already sanitised stem returns it unchanged. |
| `Rag.FileNamesCollide` | scripts/RAG.py:41-44 | Two distinct questions (`Is it?`, `Is it!`) map to the same file name, so the later save overwrites the earlier one. |
| `Rag.ResponseBody` | scripts/RAG.py:44 | The file content is exactly the header line `# Wikipedia page\n` followed by the answer, unmodified. |
| `Rag.ResponseBodyRoundTrip` | scripts/RAG.py:44 | Dropping the header line from the file content gives back the answer. |
| `Rag.ResponseBodyInjective` | scripts/RAG.py:44 | Different answers always give different file contents. |
| `Rag.ResponsePath` | scripts/RAG.py:41-42 | The path is the output folder joined with the sanitised file name. It depends only on the folder and the question, and has length `\|dir\| + \|question\| + 4`. |
| `Rag.SaveTwiceOverwrites` | scripts/RAG.py:38-46 | Saving the same question twice writes one path. The second answer replaces the first. |
| `Rag.SaveResponseToFile` | scripts/RAG.py:38-46 | Creates the output folder. Writes the header plus the answer at the sanitised path and returns that path. No other file changes. |
| `FileSystem.FileStore.MakeDir` | scripts/RAG.py:40 | `mkdir(exist_ok=True)`: the folder exists afterwards, whether or not it existed before. Files are unchanged. |
| `FileSystem.FileStore.Write` | scripts/RAG.py:43-44 | Opening for write creates or truncates the file. The file then holds exactly the given content, and no other file changes. |
| `FileSystem.Join` | scripts/RAG.py:26 | A joined path is the folder, one separator, then the name. Both parts can be read back from it. The same join stands for `Path(dir) / name` at line 42. |
| `Rag.FormatOf` | scripts/RAG.py:27-33 | A name goes to the PDF loader if and only if it ends with `.pdf`, to the HTML loader if and only if it ends with `.html`, and is unsupported if and only if it ends with neither. No name ends with both, so testing `.pdf` first decides nothing. |
| `Rag.LoadedDocumentsAppend` | scripts/RAG.py:24-35 | Documents from a listing split in two are the first part's documents followed by the second part's, so documents come out in listing order. |
| `Rag.NoticesAppend` | scripts/RAG.py:33-34 | Notices from a listing split in two are the first part's notices followed by the second part's, in listing order. |
| `Rag.LoadedDocumentsCons` | scripts/RAG.py:25-35 | The first entry's documents and notice come before those of the rest of the listing. |
| `Rag.LoadCounts` | scripts/RAG.py:25-35 | The number of documents is the sum of what each file's loader returns. There is exactly one notice per unsupported name. |
| `Rag.UnsupportedOnly` | scripts/RAG.py:33-34 | A listing of unsupported names only gives no documents and exactly one notice per name, `Unsupported format: <name>`, in order. |
| `Rag.ExtensionCaseSensitive` | scripts/RAG.py:27-30 | Suffix matching is case-sensitive. `X.PDF` and `X.HTML` are unsupported, while `X.pdf` and `X.html` are loaded. |
| `Rag.LoadDocumentsFromFolder` | scripts/RAG.py:23-35 | The loop returns exactly the documents of each entry's loader, concatenated in listing order, and the notices of the unsupported entries. |
| `Rag.SelectVectorStore` | scripts/RAG.py:55-58 | Selection succeeds if and only if the type is `"InMemory"`. Otherwise the error is `Unknown vector store type: <type>`. |
| `Rag.PrepareDocuments` | scripts/RAG.py:55-61 | Any type other than `"InMemory"` aborts with the error before anything is loaded and with no notice. `"InMemory"` gives the loaded documents and notices. |
| `Evaluation.LoggedRows` | scripts/evaluation.py:56-70 | With logging off the log is unchanged. An empty log becomes exactly `[header, row]`. A non-empty log gains exactly one row at the end, and the earlier rows are unchanged (no deduplication). The new row has three fields: the keyword, then the scores, with the 4o-mini score last. |
| `Evaluation.AppendAllKeepsRows` | scripts/evaluation.py:59-70 | Runs on a log that already has rows append their data rows in call order and keep every existing row. |
| `Evaluation.EmptyLogRuns` | scripts/evaluation.py:57-70 | Runs from an empty log leave the header followed by the data rows of the runs, in call order. |
| `Evaluation.HeaderWrittenOnce` | scripts/evaluation.py:57-70 | After n ≥ 1 runs from an empty log there are n + 1 rows. Row 0 is the header, and row i is the data row of run i, in call order. |
| `Evaluation.EvaluationLog.Append` | scripts/evaluation.py:56-70 | Reads the rows, writes the header only if there were none, then writes the data row. The new log is `LoggedRows` of the old one. |
| `Evaluation.ReportPath` | scripts/evaluation.py:47 | The report path is `[Eval]` followed by the evaluated path, unchanged. |
| `Evaluation.FooterAsWritten` | scripts/evaluation.py:49-53 | The footer as written starts with `## Evaluation\n`, then the 4o block with the gpt-4o score and reason, and ends with the 4o-mini block, which also carries the gpt-4o score and reason (see `FooterAsWrittenIgnoresMini`). |
| `Evaluation.Footer` | scripts/evaluation.py:49-53 | The corrected footer: `## Evaluation\n`, the 4o block with the gpt-4o score and reason, a blank line, then the 4o-mini block with the gpt-4o-mini scorer's own score and reason. |
| `Evaluation.FooterAsWrittenIgnoresMini` | scripts/evaluation.py:49-53 | As written, the footer does not depend on the gpt-4o-mini score or reason at all. |
| `Evaluation.FooterAsWrittenMisreports` | scripts/evaluation.py:52-53 | For a 4o score of 5 and a 4o-mini score of 3, the footer as written differs from the one that reports each scorer's own score. |
| `Evaluation.FooterReportsMiniScore` | scripts/evaluation.py:49-53 | The corrected footer determines the 4o-mini score: two runs that agree on everything else and produce the same footer had the same 4o-mini score. |
| `Evaluation.FooterReportsMiniReason` | scripts/evaluation.py:53 | The corrected footer determines the 4o-mini reason: two runs that agree on both scores and the 4o reason and produce the same footer had the same 4o-mini reason. |
| `Evaluation.ReportContent` | scripts/evaluation.py:47-53 | The report starts with the page text verbatim, followed by a footer that starts with `## Evaluation\n`. |
| `Evaluation.CalculateGevalCorrectness` | scripts/evaluation.py:9-70 | A missing page or reference file fails before anything is written. Otherwise the run writes the report at `[Eval]` + path and updates the log by `LoggedRows`. Nothing else changes. The report carries the corrected `Footer` from the Findings row, not the footer of lines 52-53 as written. |
| `Analysis.AbbreviationOf` | scripts/analysis.py:8-27 | The abbreviation is present if and only if the topic is a key of the lookup table, and then it is the table's value. Otherwise it is missing. |
| `Analysis.WithoutKeyColumns` | scripts/analysis.py:31 | A column is kept if and only if it is in the input and is neither `Topic` nor `Abbreviation`. |
| `Analysis.WithoutKeyColumnsDistinct` | scripts/analysis.py:31 | Filtering does not introduce duplicate columns. |
| `Analysis.WithoutKeyColumnsAppend` | scripts/analysis.py:31 | The filter commutes with concatenation, so the remaining columns keep their relative order. |
| `Analysis.WithoutKeyColumnsKeepsOthers` | scripts/analysis.py:31 | A list without `Topic` and `Abbreviation` passes through the filter unchanged. |
| `Analysis.WithoutKeyColumnsLength` | scripts/analysis.py:31 | On distinct columns the filter drops exactly the key columns that are present, each once. |
| `Analysis.ReorderColumns` | scripts/analysis.py:31-32 | Column 0 is `Topic` and column 1 is `Abbreviation`, followed by the other columns in their order. The set is the input set plus the two key columns, with no duplicates. When both key columns were present, the length is unchanged. |
| `Analysis.ReorderColumnsIdempotent` | scripts/analysis.py:31-32 | Reordering columns that are already in order changes nothing. |
| `Analysis.AssignAbbreviationFixed` | scripts/analysis.py:27 | Re-assigning the column leaves the table unchanged when every row already holds its topic's abbreviation. |
| `Analysis.AssignAbbreviation` | scripts/analysis.py:27 | Assigning the column keeps the table well formed. An existing `Abbreviation` column stays where it is; otherwise it is appended last. The row count is unchanged. Each row's `Abbreviation` is the lookup of its `Topic`, and every other cell is unchanged. |
| `Analysis.AddProteinAbbreviations` | scripts/analysis.py:7-35 | A table without `Topic` raises a KeyError. Otherwise the columns start with `Topic, Abbreviation`, the rest keep their order, and the column set is the original set plus `Abbreviation`. The row count is unchanged. Each row's `Abbreviation` is the lookup of its `Topic`, and every other cell is unchanged. |
| `Analysis.AbbreviationsIdempotent` | scripts/analysis.py:27-32 | Applying the step to its own output gives the same table. |
| `Analysis.LowerAscii` | scripts/analysis.py:48 | Lower-casing keeps the length and lower-cases each character at its position. |
| `Analysis.IsAllAnyCase` | scripts/analysis.py:48 | A filter value means "all" if and only if it is `all` in some letter case. |
| `Analysis.RowsWithK` | scripts/analysis.py:49 | A row is kept if and only if it is in the input and its `k_chunks` equals the integer. No rows are added. |
| `Analysis.RowsWithKAppend` | scripts/analysis.py:49 | The row filter commutes with concatenation, so kept rows stay in their original order. |
| `Analysis.RowsWithKNoneMatch` | scripts/analysis.py:49-52 | When no row has the value, the filtered table has no rows. |
| `Analysis.RowsWithKAllMatch` | scripts/analysis.py:49 | When every row has the value, every row is kept, in order. |
| `Analysis.FilterRows` | scripts/analysis.py:48-49 | Keeping every row returns the table. A numeric filter on a table without `k_chunks` raises `KeyError: 'k_chunks'`. Otherwise the columns are unchanged and a row is kept if and only if its `k_chunks` equals the value, with no rows added. |
| `Analysis.PlotBoxplots` | scripts/analysis.py:39-78 | The no-data notice `No data available for k_chunks = <value>` comes exactly from an empty filtered table. A non-empty filtered table that has both score columns is always plotted, and only such a table is. It is saved as `boxplots_k<value>.png` exactly when saving is asked for. A numeric value on a table without `k_chunks` raises `KeyError: 'k_chunks'`. A non-empty filtered table without `GEval 4o score` raises that KeyError, and one with it but without `GEval 4o-mini score` raises the KeyError for that column. |
| `Analysis.AllKeepsEveryRow` | scripts/analysis.py:48-49 | With `all` in any letter case, the whole table is kept. |
| `Analysis.KFilterKeepsMatchingRows` | scripts/analysis.py:48-49 | Any other value keeps exactly the rows whose `k_chunks` is `int(value)`, in order, with the columns unchanged. |
| `Analysis.NoMatchingRowsNoPlot` | scripts/analysis.py:48-54 | A value that no row has gives the no-data notice and no plot. |

## Findings

| source | as written | input that shows it | evidently intended | confidence | as-written member | corrected member |
|---|---|---|---|---|---|---|
| scripts/evaluation.py:52-53 | The `GEval 4o-mini correctness score` line and the reason after it print the gpt-4o metric's score and reason. | A run where gpt-4o scores `5` and gpt-4o-mini scores `3`. The footer shows `5` on both lines, although the CSV row (line 70) logs `3`. | The 4o-mini line reports the gpt-4o-mini metric's own score and reason, as the CSV row does. | high (not executed) | `Evaluation.FooterAsWrittenMisreports` | `Evaluation.FooterReportsMiniScore` |

`Evaluation.FooterAsWrittenIgnoresMini` states the defect for all inputs. The
report written by `CalculateGevalCorrectness` uses the corrected `Footer`.

## Left out

- The environment set-up of API keys (scripts/RAG.py:15-20): global process configuration.
- Everything delegated to LangChain and OpenAI: the chat and embedding models (scripts/RAG.py:51-52), the in-memory vector store (its construction at line 56 is modelled only as the `InMemoryVectorStore` tag), chunking with `RecursiveCharacterTextSplitter`, adding to the store, `hub.pull`, retrieval, prompt rendering, `llm.invoke`, and the LangGraph streaming loop (scripts/RAG.py:63-100). These are foreign, non-deterministic services.
- The internals of `PyPDFLoader` and `UnstructuredHTMLLoader`: they are opaque `Loader` parameters.
- `os.listdir`: the listing is an input sequence. A missing or unreadable folder is not modelled.
- GEval construction and `measure` (scripts/evaluation.py:16-45): remote LLM scoring. Scores and reasons arrive as a `Grade` input. The `question` argument and the reference text only feed the scorers, so they do not appear beyond the check that the reference file exists.
- Real file and CSV I/O. Files are a path→text map. CSV quoting and the `a+` cursor semantics are not modelled. `read_csv`/`to_csv` are not modelled: the table `AddProteinAbbreviations` returns is what is written back.
- FileSystem.FileStore.MakeDir: does not model a missing parent folder, which makes `mkdir` without `parents=True` fail.
- FileSystem.FileStore.Write: does not model writing into a folder that does not exist, for example the `[Eval]out` folder a report path can name.
- FileSystem.Join: joins with `/` and does no `os.path`/`pathlib` normalisation, so `out/` and `out` give different paths, and an empty folder gives `/name` where `os.path.join(Path(""), name)` gives `./name` and `Path("") / name` gives `name`.
- Rag.SanitizedStem: `str.isalnum` is restricted to ASCII letters and digits, so non-ASCII letters and digits, which Python keeps, become `_` here.
- Rag.SanitizedFileName: the same ASCII restriction as `Rag.SanitizedStem`.
- Analysis.LowerAscii: `str.lower` is restricted to ASCII. For the comparison with `"all"` this gives the same result as Python, because no non-ASCII character lower-cases to `a` or `l`.
- `int(k_chunks_filter)` is the opaque parameter `toInt`. A value it rejects (ValueError) is not modelled.
- Floating-point cells: scores are carried as text. `k_chunks` cells compare only as integers, so a float column holding `50.0` is not modelled.
- The caller's data frame after `add_protein_abbreviations`: the caller sees the column assigned in place (`AssignAbbreviation`, which keeps an existing column in place and otherwise appends it last) but not reordered. `main` never reads it again.
- Evaluation.CalculateGevalCorrectness: the report it writes uses the corrected `Footer`, so where the two scorers disagree its 4o-mini line differs from what scripts/evaluation.py:52-53 writes. The footer as written is `FooterAsWritten`, under Findings.
- The console messages `Response saved to …` (scripts/RAG.py:45), `Abbreviation column added …` (scripts/analysis.py:36) and `Boxplots saved as …` (scripts/analysis.py:76): output only, with no effect on any state. The loader's `Unsupported format` notice and the no-data notice are modelled because they report a decision.
- Seaborn/matplotlib rendering (scripts/analysis.py:56-78): only the decision to render, save or stop is modelled.
- The argparse front ends and their quirks: `--csv_path` is passed as the logging flag, the log name is fixed to `evaluation.csv` (scripts/evaluation.py:57, 84), and `main` does not forward `--k_chunks` to `plot_boxplots` (scripts/analysis.py:98).
