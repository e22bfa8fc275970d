# Size-bounded batching of a mirrored JSON collection

`mirror_and_push.py` fetches a JSON array of records from one HTTP API and
republishes it, in batches, to a webhook. Its logic is a greedy chunker,
`chunk_by_size`. The chunker walks the records once and keeps a running total
of each record's compact JSON/UTF-8 byte length. It closes the current batch
whenever the next record would push that total above `max_bytes`. After the
chunker, `push_chunks` numbers the batches from 1 and posts them in order. The
first rejected post stops the run.

This project models both in Dafny:

- `chunking.dfy` (module `Chunking`) holds the chunker.
  - `ChunkBySize` is the loop. It keeps the same `chunk` list and `size`
    counter as the Python code.
  - Its invariant ties the loop state to `Scan`, a function of the records
    consumed so far. `Chunks` is `Scan` followed by the final flush.
  - The records have a generic type `T`. A record's encoded length is an
    abstract `encLen: T -> nat`.
- `IsChunking` describes the output without reference to the scan. The output
  is the greedy tiling of the records. Each tile is non-empty, and the tiles
  concatenate to the input. Each tile fits: it holds at most one record, or its
  total is at most the limit. Each tile after the first was started because its
  first record would have overflowed the tile before it. One empty batch comes
  first exactly when the first record alone is over the limit.
- The scan produces this tiling (`ChunksIsChunking`), and no other output
  satisfies the description (`ChunksCharacterized`). Every listed property of
  the output follows from the description.
- `pushing.dfy` (module `Pushing`) holds `push_chunks`.
  - `Payloads` numbers the chunks as `enumerate(chunks, start=1)` does.
  - `PushChunks` is the posting loop. The HTTP post and its status check are
    one abstract predicate, `accepted`.

### The docstring against the code

The docstring of `chunk_by_size` says that each batch's JSON dump "stays under
max_bytes". The code does not do that. It sums the lengths of the records
encoded one by one. It allows the sum to equal `max_bytes`, because the test is
`>`. It also lets a single oversized record form a batch of its own. The model
follows the code.

- `ChunksWithinLimit` states the bound that the code actually enforces.
- `ChunkDumpBound` shows how far the compact array dump can go over the limit:
  the brackets and commas add `|c| + 1` bytes.
- `DocstringBoundExceeded` is a concrete case. Two records of 50 bytes each and
  a limit of 100 form one batch whose array dump is 103 bytes.

A second quirk of the code is kept as written. When the first record alone is
over the limit, the size test runs while the batch is still empty, so an empty
batch is yielded first.

## Model

| member | source | states |
|---|---|---|
| `Chunking.ChunkBySize` | mirror_and_push.py:22-34 | the loop returns exactly `Chunks(items)`, which is the reference chunking of the input (`IsChunking`) |
| `Chunking.ScanIsChunking` | mirror_and_push.py:24-32 | after every prefix of the input, the open chunk is non-empty and `size` is its byte total; the chunks yielded so far followed by the open chunk form the reference chunking of that prefix; an empty prefix leaves the initial state |
| `Chunking.ChunksIsChunking` | mirror_and_push.py:22-34 | everything the chunker yields, final flush included, is the greedy tiling of the records, preceded by one empty chunk exactly when the first record is oversized |
| `Chunking.TilingUnique` | mirror_and_push.py:28-32 | two tilings of the same records, both non-empty, fitting and split only where needed, are equal: greedy leaves no choice |
| `Chunking.ChunksCharacterized` | mirror_and_push.py:22-34 | a sequence of chunks is the reference chunking of the input if and only if it equals the chunker's output |
| `Chunking.ChunksConcat` | mirror_and_push.py:24-34 | the yielded chunks, concatenated in order, are exactly the input records: nothing is lost, duplicated or reordered |
| `Chunking.ChunksWithinLimit` | mirror_and_push.py:27-32 | every chunk holds at most one record or has an encoded-length sum of at most `max_bytes`, equality allowed; when `max_bytes >= 0`, every chunk has exactly one record or a sum of at most `max_bytes` |
| `Chunking.ChunksEmptiness` | mirror_and_push.py:24-34 | a yielded chunk is empty if and only if it is the first one and the first record alone exceeds `max_bytes`; the output is empty if and only if the input is |
| `Chunking.ChunksGreedy` | mirror_and_push.py:28-30 | for every two consecutive chunks, the first one's total plus the length of the next chunk's first record exceeds `max_bytes` |
| `Chunking.ChunksCount` | mirror_and_push.py:26-34 | one pass yields at most one chunk per record plus one; at most one per record unless the first record is oversized |
| `Chunking.OversizedAlone` | mirror_and_push.py:28-32 | a record whose length exceeds `max_bytes` is the only record of its chunk |
| `Chunking.ChunkDumpBound` | mirror_and_push.py:23-28 | the compact JSON array of a chunk of two or more records is at most `max_bytes + |c| + 1` bytes long, not under `max_bytes` as the docstring says |
| `Chunking.DocstringBoundExceeded` | mirror_and_push.py:23-32 | two 50-byte records under a limit of 100 form one chunk whose array dump is 103 bytes |
| `Chunking.ScenarioForty` | mirror_and_push.py:26-34 | three 40-byte records under a limit of 100 are chunked two, then one |
| `Pushing.EnumerateNumbering` | mirror_and_push.py:37 | enumerating from `start` pairs position `i` with number `start + i` and chunk `i`, keeping the length |
| `Pushing.PayloadsNumbering` | mirror_and_push.py:37-38 | payload batch numbers are exactly 1, 2, ..., n in chunk order, and payload `i` carries chunk `i` unchanged |
| `Pushing.PayloadsRoundTrip` | mirror_and_push.py:37-38 | taking the items back out of the payloads gives the chunks |
| `Pushing.PayloadsCarryAllRecords` | mirror_and_push.py:46-47 | chunking the fetched records and numbering the chunks delivers every record exactly once and in order |
| `Pushing.PushChunks` | mirror_and_push.py:36-41 | the payloads are posted in order as a prefix of `Payloads(chunks)`, each numbered `i + 1` and carrying chunk `i`, and each was accepted; when all are accepted, `pushed` is all of `Payloads(chunks)`; the run ends with all chunks pushed, or it aborts at batch `|pushed| + 1`, the first one rejected |

## Left out

- Fetching (`fetch_full_data`, mirror_and_push.py:13-20) is network I/O through `requests`. The model takes the fetched records as an input sequence.
- ChunkBySize, `encLen`: encoding failures at mirror_and_push.py:27 are not modelled. `encLen` is total. A lone surrogate in a fetched string makes `.encode("utf-8")` raise UnicodeEncodeError, and a value that is not JSON-serializable makes `json.dumps` raise TypeError. Either one aborts the scan part-way, `list(...)` at line 46 passes the error up, and the run ends before any batch is pushed. `ChunksConcat`, `ChunkBySize` and `PayloadsCarryAllRecords` therefore speak only of runs in which every record encodes.
- JSON serialization and UTF-8 encoding (mirror_and_push.py:27) come from a library the model cannot see. A record's encoded length is the abstract `encLen`, and `ListDumpLen` assumes compact array syntax: brackets, with commas between records.
- HTTP posting, timeouts and `raise_for_status` (mirror_and_push.py:39-40) are one abstract predicate, `accepted`, on the payload. It does not distinguish HTTP errors from transport errors, and it does not model the request body that `requests` serializes.
- The progress `print` lines (mirror_and_push.py:41, 45) are console output. They are not modelled.
- Configuration from environment variables and the URL constants (mirror_and_push.py:7-9), and the `main` glue (mirror_and_push.py:43-50), are left out. The default limit of 5 MiB (lines 10 and 22) is kept as `DefaultMaxBytes`, the default value of `ChunkBySize`'s `maxBytes` parameter.
- The generator's laziness (`yield`) is not modelled. The output is the fully materialized list, as `main` builds it with `list(...)`.
- Python's arbitrary-precision integers match Dafny's `int`. No overflow is involved.
