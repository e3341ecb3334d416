# AutoML to AutoDL conversion core, modelled in Dafny

This project models the conversion core of `utils/automl_format/format_automl_new.py`.
The core turns one split of an AutoML dataset into AutoDL records.
A split is a dense or CSR-sparse feature matrix plus its labels.
Each record is a SequenceExample with an `id`, a sparse label list and the feature lists.
After the records, the core writes a `metadata.textproto` sidecar.

The modules follow the steps of the program:

- `Types` (`types.dfy`): the dataset, its splits, the metadata, the records and the errors the core raises.
- `Text` (`text.dfy`): Python's `str()` of an integer, its inverse, and the facts that make printed integers unambiguous.
- `Labels` (`labels.dfy`):
  - `binary_to_multilabel` and `regression_to_multilabel`, with the threshold passed in;
  - the task switch;
  - the loop of `dense_to_sparse_label`.
- `Prepare` (`prepare.dfy`), `_prepare_metadata_features_and_labels`:
  - choosing the split and merging valid into train;
  - normalising the labels;
  - the shape gate;
  - building the metadata.
- `Encoding` (`encoding.dfy`):
  - `csr_feature_vector_to_lists`;
  - `np.reshape(row, (sequence_size, -1))` as a cut into frames;
  - the per-row branch between the sparse and dense feature lists.
- `Sidecar` (`sidecar.dfy`): `_write_metadata_textproto`. The template is literals and placeholders, and the seven `replace` calls run in the source's order. `Replace` substitutes whole placeholder pieces, while Python's `str.replace` rewrites text. The two agree here because each placeholder occurs exactly once in the template and no value (a decimal integer, `DENSE` or `SPARSE`) contains `<`. For the same reason the order of the seven calls does not change the result.
- `Writer` (`writer.dfy`): the row loop of `convert_vectors_to_sequence_example`. It has the `id` offset, empty test labels, the `break` at the limit, and the error that stops the loop.
- `Conversion` (`conversion.dfy`): `press_a_button_and_give_me_an_AutoDL_dataset` without the file system. It covers the output-name suffixes, then the test split, then the train split.

Python behaviour that the model keeps on purpose:

- `max_num_examples` is tested for truthiness, so `None` and `0` both mean "no limit".
- After each record the loop stops once `counter >= max_num_examples`. A negative limit therefore still lets one record through.
- `X_valid.size` counts every entry of a numpy array but only the stored entries of a scipy matrix. A sparse validation split that stores nothing is therefore not merged.
- The train id offset is `D_info['test_num']` from the dataset info. It is not the number of test records actually written.
- A shape that passes the `T*H*W*C == width` gate can still fail in the row loop:
  - a dense row cannot be cut when `T <= 0`. With a positive width, the gate lets `T < 0` through when an odd number of the other factors is negative. A width-0 split passes whenever one factor is 0, including `T = 0`. With `T > 0` the gate's product makes `T` divide the width;
  - sparse rows need `T == 1`.

  Both errors are raised only when a row is reached, after the test solution rows are known.
- The solution file of the test split receives every label row, even when `max_num_examples_test` truncates the records.

## Model

| member | source | states |
|---|---|---|
| Text.IntToStringRoundTrip | utils/automl_format/format_automl_new.py:290-296 | the `str()` text of any integer reads back as that integer |
| Text.IntToStringInjective | utils/automl_format/format_automl_new.py:290-296 | two integers print the same text exactly when they are equal |
| Labels.BinaryToMultilabel | utils/automl_format/format_automl_new.py:131-132 | the result is a valid width-2 matrix with one row per label, and row i is exactly `[1-b_i, b_i]` |
| Labels.BinaryToMultilabelInverse | utils/automl_format/format_automl_new.py:131-132 | column 1 of the expanded labels gives each label back, and every row sums to one |
| Labels.BinaryExample | utils/automl_format/format_automl_new.py:131-132 | labels 0,1,1,0 expand to the rows [1,0],[0,1],[0,1],[1,0] |
| Labels.RegressionToMultilabel | utils/automl_format/format_automl_new.py:134-137 | a row is [0,1] exactly when its value is strictly above the threshold, and [1,0] exactly when it is at or below it |
| Labels.RegressionMonotone | utils/automl_format/format_automl_new.py:134-137 | a larger value never gets a smaller column-1 indicator than a smaller value |
| Labels.RegressionExample | utils/automl_format/format_automl_new.py:134-137 | values 1..5 cut at their median 3 give [1,0] three times and then [0,1] twice, so the median itself is not above |
| Labels.NormalizeLabels | utils/automl_format/format_automl_new.py:174-178 | regression labels are cut at the threshold of the split's own labels: a row is [0,1] exactly when its value is above it and [1,0] exactly when it is at or below it; binary labels are expanded to [1-b, b]; other tasks pass through unchanged; the row count is preserved |
| Labels.DenseToSparseLabel | utils/automl_format/format_automl_new.py:223-237 | the lists have equal length; indexes are strictly increasing and in range; each score is the non-zero entry at its index; every non-zero position is listed |
| Labels.SparseLabelScatters | utils/automl_format/format_automl_new.py:231-237 | scattering the scores back to their indexes over zeros rebuilds the dense label row |
| Labels.SparseLabelUnique | utils/automl_format/format_automl_new.py:231-237 | a label row has exactly one sparse encoding, so the lists written into a record are determined by the row |
| Labels.BinarySparseLabel | utils/automl_format/format_automl_new.py:231-237 | an expanded 0/1 binary label encodes as the single index of the label with score 1 |
| Prepare.ResolveShape | utils/automl_format/format_automl_new.py:180-205 | four unset values give (1,1,width,1); some but not all set is an error; with all set, acceptance holds exactly when T*H*W*C equals the width, otherwise a mismatch error naming both; an accepted shape has T*H*W*C == width |
| Prepare.ResolveShapeAccepts | utils/automl_format/format_automl_new.py:180-205 | the gate accepts exactly "nothing given" or "all given with the right product", and then keeps the declared values |
| Prepare.ConcatFeatures | utils/automl_format/format_automl_new.py:158-163 | stacking keeps the storage kind and the width, the rows are train's rows followed by valid's, and the size is the sum of the two sizes |
| Prepare.ConcatLabels | utils/automl_format/format_automl_new.py:164-164 | the labels are train's followed by valid's, in the same kind and width |
| Prepare.SelectSplit | utils/automl_format/format_automl_new.py:152-173 | it fails exactly when the set type is neither train nor test; otherwise the split is valid and has one label per feature row |
| Prepare.PrepareMetadataFeaturesAndLabels | utils/automl_format/format_automl_new.py:139-215 | it fails exactly on a wrong set type or a rejected shape, and for a valid set type the error is the gate's; the features are those of the selected split and the labels are that split's labels normalised for the task; the metadata has sample_count = rows = label rows, output_dim = label width, and exactly the shape the gate resolved, whose product is the width |
| Prepare.TrainSplitMerge | utils/automl_format/format_automl_new.py:162-178 | the train split is train followed by valid, for features and sample count, when valid has a non-zero size, and otherwise train unchanged; for every task the labels are the merged raw labels normalised together, so a regression threshold is taken over train and valid at once |
| Prepare.TestSplitUnmerged | utils/automl_format/format_automl_new.py:169-178 | the test split is the test matrix, sample_count is its row count, and the labels (the solution rows) are the test labels normalised on their own |
| Prepare.ValidMergedWhen | utils/automl_format/format_automl_new.py:162-162 | a dense valid split is merged exactly when it has a row and a column; a sparse one exactly when it stores an entry |
| Encoding.CsrFeatureVectorToLists | utils/automl_format/format_automl_new.py:217-221 | the column list is the row's indices and the value list its data; the row list has the same length and is all zeros |
| Encoding.CsrListsDescribeRow | utils/automl_format/format_automl_new.py:217-221 | read as coordinates, the three lists give as row 0 exactly the dense row obtained by scattering the CSR values to their column indices, and leave every other row empty |
| Encoding.FramesFlatten | utils/automl_format/format_automl_new.py:361-362 | concatenating the frames in order gives the row back |
| Encoding.Reshape | utils/automl_format/format_automl_new.py:361-361 | it succeeds exactly when sequence_size > 0 divides the row length; it then gives sequence_size frames of length width/sequence_size whose concatenation is the row |
| Encoding.EncodeFeatures | utils/automl_format/format_automl_new.py:346-365 | a sparse row fails exactly when sequence_size != 1 and otherwise yields its three lists; a dense row gives one frame equal to the row for sequence_size 1, and otherwise fails exactly when the reshape fails, with the reshape error, else gives equal frames that concatenate to the row |
| Encoding.AcceptedShapeEncodes | utils/automl_format/format_automl_new.py:346-362 | a dense row whose width is T*H*W*C with T > 0, or a sparse row with T == 1, always encodes |
| Sidecar.Replace | utils/automl_format/format_automl_new.py:290-296 | replacing a placeholder turns exactly its occurrences into the value and leaves every other piece unchanged |
| Sidecar.DescriptorOf | utils/automl_format/format_automl_new.py:263-272 | sample_count is the written count; sequence_size, output_dim, col_count, row_count and num_channels are the metadata's; the format is DENSE exactly when the info format is "dense" |
| Sidecar.WriteMetadataTextproto | utils/automl_format/format_automl_new.py:261-296 | the seven replacements, in the source's order, give the template filled with the descriptor's values |
| Sidecar.MetadataTextSchema | utils/automl_format/format_automl_new.py:276-289 | the sidecar text is the fixed schema: the template's literal lines in order with the seven values in their places |
| Sidecar.FillInjective | utils/automl_format/format_automl_new.py:290-296 | when placeholders are followed by lines that start with a newline, equal filled texts give equal values to every placeholder |
| Sidecar.MetadataTextInjective | utils/automl_format/format_automl_new.py:276-296 | two descriptors give the same sidecar text exactly when they are equal |
| Writer.IdOffset | utils/automl_format/format_automl_new.py:319-328 | the offset is 0 for the test split and the info's test_num for train |
| Writer.EmittedCount | utils/automl_format/format_automl_new.py:373-375 | it is at most the pair count; it is n when the limit is unset or 0, min(n, k) for k > 0, and at most one record for k < 0 |
| Writer.EncodeExample | utils/automl_format/format_automl_new.py:333-365 | it succeeds exactly when the feature row encodes, and then the record has the given id, empty test labels or the sparse train labels, and the row's feature lists |
| Writer.WriteRecords | utils/automl_format/format_automl_new.py:330-375 | the loop writes EmittedCount records, numbered from the offset, when every row up to there encodes; otherwise it stops at the first failing row, with that row's error |
| Writer.ConvertVectorsToSequenceExample | utils/automl_format/format_automl_new.py:300-377 | the solution rows exist only for test and are all label rows; a sidecar exists exactly when every row up to the limit encodes, and its sample_count is the number of records written; record i has id i + offset; the result is a `SplitOutput` (records, solution rows, sidecar or error) |
| Writer.IdsConsecutive | utils/automl_format/format_automl_new.py:341-341 | ids within a split rise by one from record to record, so they are distinct |
| Writer.SplitIdsOverlap | utils/automl_format/format_automl_new.py:319-341 | test and train share an id exactly when train is non-empty and test_num is below the number of test records |
| Conversion.BaseName | utils/automl_format/format_automl_new.py:415-415 | the new name is used when it is given and non-empty, the dataset name otherwise |
| Conversion.LimitSuffix | utils/automl_format/format_automl_new.py:417-420 | a set, non-zero limit gives `_` followed by exactly `str()` of the limit, which holds no `_` and reads back as the limit; otherwise nothing |
| Conversion.OutputName | utils/automl_format/format_automl_new.py:415-420 | the name is the base name followed by `_<train limit>` when that limit is set and non-zero and then `_<test limit>` when that one is: each of the four cases is stated, and the name equals the base name exactly when neither limit is truthy |
| Conversion.OutputNameAmbiguous | utils/automl_format/format_automl_new.py:417-420 | limiting only train or only test to the same k gives the same name, which differs from the unlimited name |
| Conversion.OutputNameInjective | utils/automl_format/format_automl_new.py:417-420 | with both limits set, two names are equal exactly when both limits are equal |
| Conversion.NegativeShapePassesGate | utils/automl_format/format_automl_new.py:190-197 | T = -1, H = 1, W = -width, C = 1 passes the shape gate, yet a dense row of that width then fails to reshape |
| Conversion.ConvertSplit | utils/automl_format/format_automl_new.py:434-445 | one split: it fails exactly when the shape gate rejects, with the gate's error; otherwise record i is the record for row i of the prepared features and labels, with ids consecutive from 0 for test and from test_num for train; the test split saves every prepared label row as its solution and train saves none; a sidecar for EmittedCount of the split's rows exists exactly when those rows all encode, and otherwise the loop stops before that count at the first row that fails, with its error |
| Conversion.ConvertTrainAfterTest | utils/automl_format/format_automl_new.py:438-445 | the training split is converted as ConvertSplit states, from the merged train rows under the train limit with ids from test_num, and shares an id with the test records exactly when it is non-empty and test_num is below the test record count |
| Conversion.PressAButton | utils/automl_format/format_automl_new.py:398-445 | the name is OutputName; a rejected shape stops the run before any record, with the gate's error; test is converted first, and train is converted exactly when the test loop wrote its sidecar; the reported error is the failing loop's row error, and there is none exactly when train completes; each written split is the conversion of its prepared split as ConvertSplit states, with max_num_examples_test limiting the test rows and max_num_examples_train the merged train rows; test ids run from 0 and train ids from test_num, and the splits share an id exactly when train is non-empty and test_num is below the test record count |

## Left out

- TensorFlow protobuf construction, `SerializeToString` and `TFRecordWriter` are left out because they are library serialisation. A record is a datatype, and the writer is the sequence of records written so far.
- `np.median` is not modelled. The regression threshold is the parameter `getThreshold`, applied to each split's own labels as the code does.
- `np.savetxt` of the solution file is left out: it is file I/O with `%.1f` formatting. The model returns the label rows it would write.
- scipy and numpy internals, `is_sparse`, and `np.stack` are not modelled. Density is the `Features` constructor, and a CSR row is its index and value lists.
- Features and labels are `real`, so float32/float64 rounding and NaN are not modelled.
- `DataManager` loading, flag parsing, directory creation, the file paths, the renaming of the solution file, the copying of info files, logging, prints, `test()` and `print_first_sequence_example` are left out as I/O.
- The sharding arguments are declared but never used, so the model does not carry them.
- Writing `metadata.textproto` to disk is left out. The model produces the string.
- Prepare.PrepareMetadataFeaturesAndLabels requires a loader-consistent dataset. That means every split is well formed, all splits have one storage kind and one width, the label kinds match the task, and each split has one label per row. These are inputs the loader hands over, not checks the core makes.
- Labels.NormalizeLabels requires scalar labels exactly for the regression and binary tasks. The source would fail inside numpy on other combinations, and the model does not reproduce numpy's errors there.
- Writer.ConvertVectorsToSequenceExample takes `labels` as a `Matrix`, which stands for the source's `assert isinstance(labels, np.ndarray)`.
- The train id offset is `D_info['test_num']` (format_automl_new.py:328), not the number of test records written. Writer.SplitIdsOverlap states exactly when the two id ranges meet.
