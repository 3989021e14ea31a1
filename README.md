# libgit2 blob filter test, in Dafny

libgit2's blob filter test (`tests-clar/object/blob/filter.c`) stores nine
fixture buffers as blobs. It then checks three things:

- each blob holds its fixture's bytes;
- the text statistics `git_buf_text_gather_stats` reports for each blob
  match the expected record byte for byte;
- the bytes the CRLF filter writes to the object database for a path
  declared `text` match the expected buffer, but only over their common
  length (see "## Findings").

The scanner and the filter are not part of the test file. Their behaviour is
fixed here by what the fixtures demand. The project has four modules.

- `BufText` (`buf_text.dfy`) is the statistics scanner. The pure function
  `Stats` defines it: a byte-order-mark sniff of the leading bytes, then a
  front-to-back tally. The tally counts NUL, CR, LF, CR-LF pairs, printable
  and non-printable bytes. The method `GatherStats` is the byte-by-byte
  scanning loop, proved equal to `Stats`. The lemmas give the counting laws:
  - every byte is in exactly one of printable, non-printable, CR and LF;
  - the pass counts exactly the NUL, CR and LF bytes, the byte classes and
    the adjacent CR-LF pairs;
  - the count of a concatenation is the sum of its parts' counts;
  - mark detection, and the mark's bytes being counted as printable.
- `CrlfFilter` (`crlf_filter.dfy`) is the "to ODB" CRLF filter for `text`
  content. The pure function `CrlfToLf` defines it. The method `ApplyToOdb`
  is the streaming loop with a one-byte pending-CR state, proved equal to
  `CrlfToLf`. The lemmas state:
  - the output length and the output's counters;
  - when the output equals the input;
  - when a second pass changes nothing;
  - how the filter splits over concatenation.
- `BlobFilterFixtures` (`blob_filter_fixtures.dfy`) holds the four fixture
  tables: `g_raw`, `g_len`, `g_stats` and `g_crlf_filtered`. One lemma per
  fixture proves that its statistics and its filtered bytes equal the table
  entries exactly, including the size each expected buffer declares.
- `BlobFilterTest` (`blob_filter_test.dfy`) holds the test functions:
  - the initialisation loop, which settles each length in place in an
    array, using `strlen` unless a length is given;
  - the unfiltered, statistics and to-ODB test loops;
  - `FilterSuite`, which runs them on the fixtures and is proved to pass.

The object database is modelled as a store that gives back what it was given,
so a blob is its content. Three choices cover behaviour the fixtures do not
pin down. Each is an assumption and has no fixture lemma tied to it:

- Bytes 0x05–0x1F (except CR and LF) and 0x7F are classified non-printable,
  like 0x01–0x04. This includes BS, TAB, FF and ESC, and a final 0x1A (EOF)
  gets no special treatment.
- The mark sniffer also recognises the UTF-16-LE and UTF-32 marks.
- A buffer starting FF FE 00 00 is read as carrying the UTF-32-LE mark, not
  the UTF-16-LE mark followed by two NULs.

The filter is not idempotent: a second pass changes the output exactly when
the input holds CR CR LF (`CrlfFilter.CrlfToLfIdempotent`).
`CrlfFilter.CrCrLfNotIdempotent` gives the smallest such input.

## Model

| member | source | states |
|---|---|---|
| BufText.GatherStats | tests-clar/object/blob/filter.c:93 | the scanning loop returns exactly the statistics `Stats` defines: the leading bytes' mark, plus all counters taken with the mark bytes included |
| BufText.StatsEmpty | tests-clar/object/blob/filter.c:22 | the empty buffer has all counters zero and no mark |
| BufText.TallyTotal | tests-clar/object/blob/filter.c:21-31 | nonprintable + printable + cr + lf equals the buffer length; nul is at most nonprintable; crlf is at most cr and at most lf |
| BufText.TallyCountsBytes | tests-clar/object/blob/filter.c:21-31 | the nul, cr and lf counters equal the number of NUL, CR and LF bytes anywhere in the buffer |
| BufText.TallyCountsClasses | tests-clar/object/blob/filter.c:27 | printable counts the bytes classified printable (0x20–0x7E and every byte from 0x80); nonprintable counts the NUL and other control bytes |
| BufText.TallyCountsPairs | tests-clar/object/blob/filter.c:25-26 | crlf equals the number of adjacent CR, LF byte pairs; both bytes of a pair are still counted in cr and lf |
| BufText.TallyAppend | tests-clar/object/blob/filter.c:26 | the counters of a concatenation are the sums of the parts' counters, plus one CR-LF pair when a CR ends the first part and an LF starts the second |
| BufText.TallyCons | tests-clar/object/blob/filter.c:93 | one byte put in front of a buffer adds one to the counter of its class, and to crlf when it is a CR before an LF |
| BufText.TallyAllPrintable | tests-clar/object/blob/filter.c:27-29 | a buffer of printable bytes (ASCII text, high bytes, UTF-8 sequences) counts every byte as printable and nothing else |
| BufText.TallyUtf16BeAscii | tests-clar/object/blob/filter.c:30 | in ASCII text written as UTF-16-BE, half the bytes are NULs counted as both nul and nonprintable, and the other half are printable |
| BufText.DetectBomSound | tests-clar/object/blob/filter.c:28-30 | the mark reported is a prefix of the buffer |
| BufText.DetectUtf8 | tests-clar/object/blob/filter.c:28-29 | the UTF-8 mark is reported exactly when the buffer starts with EF BB BF |
| BufText.DetectUtf16Be | tests-clar/object/blob/filter.c:30 | the UTF-16-BE mark is reported exactly when the buffer starts with FE FF |
| BufText.DetectBomExtend | tests-clar/object/blob/filter.c:16-18 | bytes appended after a prefix that already decides the mark do not change the mark |
| BufText.BomCountedAsPrintable | tests-clar/object/blob/filter.c:28-30 | with a UTF-8 or UTF-16-BE mark, the statistics are those of the text after the mark, with the mark's bytes added to printable |
| BufText.SignatureTally | tests-clar/object/blob/filter.c:16-18 | the bytes of the UTF-8 and UTF-16-BE marks are all printable and do not end in CR |
| CrlfFilter.ApplyToOdb | tests-clar/object/blob/filter.c:122 | the pending-CR streaming loop outputs exactly `CrlfToLf` of its input |
| CrlfFilter.CrlfToLfHead | tests-clar/object/blob/filter.c:35-37 | the output of a non-empty input starts with LF when the input starts with CR LF, and otherwise with the input's first byte |
| CrlfFilter.CrlfToLfLength | tests-clar/object/blob/filter.c:34-41 | the output length is the input length minus the input's crlf count |
| CrlfFilter.CrlfToLfTally | tests-clar/object/blob/filter.c:36-38 | only the CR of each pair is dropped: lf, nul, printable and nonprintable are kept, and cr drops by crlf |
| CrlfFilter.CrlfToLfUnchanged | tests-clar/object/blob/filter.c:34-35 | the output equals the input exactly when the input has no CR-LF pair, so lone CRs, lone LFs and LF CR are kept |
| CrlfFilter.CrlfToLfLeavesPair | tests-clar/object/blob/filter.c:122 | the output has a CR-LF pair exactly when the input has CR CR LF |
| CrlfFilter.CrlfToLfIdempotent | tests-clar/object/blob/filter.c:122 | filtering twice equals filtering once exactly when the input has no CR CR LF |
| CrlfFilter.CrCrLfNotIdempotent | tests-clar/object/blob/filter.c:122 | CR CR LF filters to CR LF, and CR LF filters to LF |
| CrlfFilter.CrlfToLfAppend | tests-clar/object/blob/filter.c:122 | filtering a concatenation whose seam does not split a CR-LF pair is filtering each part |
| BlobFilterFixtures.Glue | tests-clar/object/blob/filter.c:21-42 | when the seam does not split a pair and the first part decides the mark, the statistics of a concatenation join the parts' statistics and its filter output joins their outputs |
| BlobFilterFixtures.Vector0 | tests-clar/object/blob/filter.c:10 | the empty fixture has the all-zero statistics of line 22 and filters to the empty buffer of line 33 |
| BlobFilterFixtures.Vector1 | tests-clar/object/blob/filter.c:11 | "foo\nbar\n" has the statistics of line 23 and filters to the 8 bytes of line 34 |
| BlobFilterFixtures.Vector2 | tests-clar/object/blob/filter.c:12 | "foo\rbar\r" has the statistics of line 24 and is filtered unchanged (line 35) |
| BlobFilterFixtures.Vector3 | tests-clar/object/blob/filter.c:13 | "foo\r\nbar\r\n" has the statistics of line 25 and filters to the 8 bytes "foo\nbar\n" (line 36) |
| BlobFilterFixtures.Vector4 | tests-clar/object/blob/filter.c:14 | the mixed-endings fixture has the statistics of line 26 and filters to the 38 bytes of line 37, with only its one CR-LF collapsed |
| BlobFilterFixtures.Vector5 | tests-clar/object/blob/filter.c:15 | the 17-byte fixture with NUL, control and high bytes has the statistics of line 27 and still has its CR-LF collapsed (16 bytes, line 38) |
| BlobFilterFixtures.Vector6 | tests-clar/object/blob/filter.c:16 | the UTF-8-marked fixture has the statistics of line 28 and is filtered unchanged (17 bytes, line 39) |
| BlobFilterFixtures.Vector7 | tests-clar/object/blob/filter.c:17 | the UTF-8-marked Japanese fixture has the statistics of line 29 and filters to the 29 bytes of line 40 |
| BlobFilterFixtures.Vector8 | tests-clar/object/blob/filter.c:18 | the 12-byte UTF-16-BE fixture has the statistics of line 30 and passes the filter unchanged (line 41) |
| BlobFilterFixtures.Fixture | tests-clar/object/blob/filter.c:9-42 | for every fixture index: the statistics equal `g_stats`, the filter output equals the bytes of `g_crlf_filtered`, and their length equals the declared size |
| BlobFilterTest.Strlen | tests-clar/object/blob/filter.c:54 | `strlen` stops at the first NUL: no NUL comes before the result, a NUL is at the result unless the buffer ends there, and a buffer in which the scanner counts no NUL is measured in full |
| BlobFilterTest.ResolvedLength | tests-clar/object/blob/filter.c:54 | a non-negative declared length is kept; a negative one measures the literal up to its first NUL (no NUL before it, a NUL at it unless the literal ends there), and so in full when the literal holds no NUL |
| BlobFilterTest.DeclaredFit | tests-clar/object/blob/filter.c:20 | there is one declared length per fixture, and none exceeds the bytes its literal holds |
| BlobFilterTest.StrlenTruncates | tests-clar/object/blob/filter.c:20 | without their explicit lengths, fixtures 5 (17 bytes) and 8 (12 bytes) would be cut at their first NUL, to 4 and 2 bytes |
| BlobFilterTest.LengthsResolve | tests-clar/object/blob/filter.c:53-55 | with the `g_len` table, every fixture's length resolves to its full length |
| BlobFilterTest.Initialize | tests-clar/object/blob/filter.c:53-60 | each `g_len` entry is rewritten in place with the resolved length, and blob i holds that many leading bytes of literal i |
| BlobFilterTest.UnfilteredTest | tests-clar/object/blob/filter.c:75-80 | passes exactly when every blob has the settled length and holds that prefix of its literal |
| BlobFilterTest.StatsTest | tests-clar/object/blob/filter.c:90-96 | passes exactly when every blob's statistics equal the expected record |
| BlobFilterTest.AgreesIsPrefixAndSize | tests-clar/object/blob/filter.c:124-126 | the exact comparison is the test's prefix comparison together with equal sizes |
| BlobFilterTest.PrefixAcceptsTruncated | tests-clar/object/blob/filter.c:124-126 | every prefix of the correct output, the empty one included, passes the test's comparison |
| BlobFilterTest.TruncatedFooPasses | tests-clar/object/blob/filter.c:124-126 | the wrong output "foo\n" for fixture 1 passes the prefix comparison but not the exact one |
| BlobFilterTest.ToOdbTest | tests-clar/object/blob/filter.c:119-129 | the test as written passes exactly when every filtered blob agrees with its expected buffer on their common prefix |
| BlobFilterTest.ToOdbTestExact | tests-clar/object/blob/filter.c:119-129 | the corrected test passes exactly when every filtered blob equals its expected buffer in size and bytes |
| BlobFilterTest.FixturesAgree | tests-clar/object/blob/filter.c:119-129 | for every fixture, the statistics equal `g_stats`, and the filtered bytes pass both the exact comparison and the test's prefix comparison |
| BlobFilterTest.FilterSuite | tests-clar/object/blob/filter.c:44-129 | after initialisation on the fixtures, the unfiltered test, the statistics test and the to-ODB test (both comparisons) all pass |

## Left out

- Fixture sandboxing, opening the repository, and blob creation and lookup are file-system and object-database I/O. A blob is modelled by its content, and the object database as a store that returns what it was given.
- The cleanup function frees C resources. It changes nothing the model can observe.
- Reading the configuration, writing `.gitattributes`, flushing the attribute cache and loading the filter list resolve the `text` policy. The model takes that policy as given.
- The `auto` and `binary` attribute policies and the to-working-tree (LF to CRLF) direction are not used by the file.
- `git_buf`/`git_buffer` allocation, reuse and freeing are C memory plumbing. `memcmp` is modelled as sequence comparison.
- The counters are unbounded naturals. The C structure's fixed-width counters and their wrap-around are not modelled, because the fixtures are at most 39 bytes long.
- The UTF-16-LE and UTF-32 marks, and control bytes other than 0x00–0x04, CR and LF, are handled as assumptions. They are not pinned by any fixture.
- The `skip_bom = true` mode of the scanner is not modelled, because the test passes `false`.

## Findings

| source | as written | input that shows it | evidently intended | confidence | as-written member | corrected member |
|---|---|---|---|---|---|---|
| tests-clar/object/blob/filter.c:124-126 | the filtered output is compared with the expected buffer over only `min(out.size, expected.size)` bytes, so an output that is too short passes | fixture 1 filtered to "foo\n" (4 bytes) instead of "foo\nbar\n" (8 bytes); an empty output passes for every fixture | the output equals the expected buffer: same size, same bytes | not executed | BlobFilterTest.TruncatedFooPasses | BlobFilterTest.ToOdbTestExact |
