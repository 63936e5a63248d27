# traffic-analysis in Dafny

A model of the data-preparation and salary-model core of the
traffic-analysis repository. It has three parts:

- **chain_pattern.** A chain of responsibility of seven handlers. Together
  they turn a CSV export of résumés into a feature matrix `x_data.npy` and a
  salary vector `y_data.npy`. The handlers load the file, normalise the
  headers, split "Пол, возраст" into gender and age, and read the salary.
  They then reduce the city list to its first entry, label-encode the
  categorical columns, and build and save both arrays.
- **app.** The text logic of the level classifier:
  - the résumé field parsers (`find_column`, salary, age, experience);
  - the junior/middle/senior target built from the job title or, failing
    that, the years of experience;
  - the IT-developer filter;
  - the feature preparation (sentinel filling, city codes, experience text).
- **regression.** Training and prediction of the salary model:
  - `load_data` checks the chain's two arrays before anything is fit;
  - `train` splits, fits for evaluation, refits on every row and saves;
  - `load_model` checks the saved file in a fixed order;
  - `predict_salaries` refuses a matrix whose column count differs from the
    model's, and otherwise returns one salary per row.

Data frames are `Table` values: ordered unique labels, a column per label
and a row count. A cell is a string, an integer, a float or missing. The
handlers update a `DataFrame` object in place. The `Handler` class keeps its
successor in a field, and its `Handle` is proved against a value-level `Run`
of the stages. A Python exception is an `Err` of a `Result`. Arrays on disk
are known by their shape. The estimator is a parameter: whether `fit` raises
on a set of rows, and what `predict` gives for a row.

## Model

| member | source | states |
|---|---|---|
| Handlers.Apply | chain_pattern/handlers/base.py:42-50 | One stage's `process` keeps the frame well-formed. Only the build stage changes the saved arrays. Every stage after loading keeps the row count. |
| Handlers.Executed | chain_pattern/handlers/base.py:30-40 | `handle` makes one `process` call per stage up to and including the first that raises, and calls every stage when none raises. |
| Handlers.RunStep | chain_pattern/handlers/base.py:37-40 | A failing first stage ends the chain with its error. Otherwise the rest of the chain runs on its result. |
| Handlers.RunAppend | chain_pattern/handlers/base.py:37-40 | Running two chains one after the other is running their concatenation, and an error in the first skips the second. |
| Handlers.Handler.SetNext | chain_pattern/handlers/base.py:20-28 | Links the successor and returns it, so calls can be chained. |
| Handlers.Handler.Process | chain_pattern/handlers/base.py:42-50 | The handler's own `process` does on the object what its stage does on values. |
| Handlers.Handler.Handle | chain_pattern/handlers/base.py:30-40 | Running the chain from this handler ends as `Run` of the chain's stages, with the `process` call count of `Executed`. |
| Handlers.Stages | chain_pattern/handlers/base.py:17-18 | The stages of a chain of handlers, position by position. |
| Handlers.Run | chain_pattern/handlers/base.py:30-40 | Running a chain keeps the frame well-formed. It stops at the first error. |
| Frames.Table.Set | chain_pattern/handlers/parse_salary.py:25 | `df[n] = col` replaces the column `n` in place, or appends it last when it is new. It keeps the rows. |
| Frames.Table.Drop | chain_pattern/handlers/parse_gender_age.py:32 | `drop(columns=[n])` removes only that label and its column. |
| Frames.Table.Rename | chain_pattern/handlers/normalize_columns.py:19-25 | Assigning new labels keeps each column where it stands, under its new label. |
| Frames.Table.Select | app/data/filters.py:31 | Boolean indexing keeps the labels, and keeps each column's passing rows in order. |
| Frames.DataFrame.SetColumn | chain_pattern/handlers/parse_salary.py:25 | Column assignment on the frame object does what `Table.Set` says. |
| Frames.DataFrame.DropColumn | chain_pattern/handlers/parse_gender_age.py:32 | `drop` with `inplace=True` does what `Table.Drop` says. |
| Frames.DataFrame.SetColumnNames | chain_pattern/handlers/normalize_columns.py:19 | Assigning `df.columns` does what `Table.Rename` says. |
| Text.Lower | chain_pattern/handlers/normalize_columns.py:22 | `str.lower` maps each character to its lower-case form and keeps the length. |
| Text.LowerIdempotent | chain_pattern/handlers/normalize_columns.py:22 | Lower-casing twice is lower-casing once. |
| Text.Contains | app/data/filters.py:25 | `sub in s` holds exactly when `sub` occurs at some position of `s`. |
| Text.Strip | chain_pattern/handlers/parse_city.py:19 | `str.strip` leaves no whitespace at either end. |
| Text.StripStripped | chain_pattern/handlers/parse_city.py:19 | Stripping a stripped text changes nothing. |
| Text.Digits | chain_pattern/handlers/parse_salary.py:22 | `re.sub(r"[^\d]", "", s)` keeps only digits. |
| Text.DigitsAppend | chain_pattern/handlers/parse_salary.py:22 | Keeping the digits distributes over concatenation. |
| Text.NatTextRoundTrip | app/data/parsers.py:23-24 | The decimal text of a number reads back as that number. |
| Text.LessTotal | chain_pattern/handlers/encode_categorical.py:30 | Python's string order is total on different strings, as the sorting of the classes needs. |
| Text.LessTransitive | chain_pattern/handlers/encode_categorical.py:30 | Python's string order is transitive. |
| Patterns.Search | app/data/parsers.py:31 | `re.search` gives the leftmost position where the pattern matches, with its groups. It gives nothing exactly when no position matches. |
| Patterns.SearchFindsFirst | app/data/parsers.py:31 | A match at a position with none before it is what `re.search` reports. |
| Pipeline.BuildPipeline | chain_pattern/pipeline.py:14-33 | Returns a fresh loader whose chain runs the seven stages in their fixed order, writing next to the CSV. |
| Pipeline.ParentDirOf | chain_pattern/pipeline.py:22 | The output directory is the text before the last '/', "/" when that '/' is the first character, and "." when the path has no '/'. |
| Pipeline.LastSlash | chain_pattern/pipeline.py:22 | Finds the last '/' of a path, with none after it; `None` exactly when there is no '/'. |
| Pipeline.MissingInput | chain_pattern/pipeline.py:24 | A CSV path that does not exist ends the chain at the loader with FileNotFound, after one `process` call. |
| Pipeline.OutputNextToInput | chain_pattern/pipeline.py:22 | The arrays are written in the CSV file's own directory. |
| Pipeline.LastSlashBeforeName | chain_pattern/pipeline.py:22 | In `dir/name` with no '/' in `name`, the last '/' is the one before `name`. |
| Pipeline.OutputInWorkingDirectory | chain_pattern/pipeline.py:22 | A CSV named without a directory gets its arrays in the working directory. |
| Pipeline.StepOk | chain_pattern/handlers/base.py:37-40 | A stage that succeeds hands its result to the rest of the chain. |
| Pipeline.Unrolled | chain_pattern/pipeline.py:24-31 | A successful run is the composition of the stage functions in pipeline order, ending with both arrays saved. |
| Pipeline.SalaryCarried | chain_pattern/handlers/parse_salary.py:25 | The "salary" column that reaches the build stage is the digits of each raw "зп" text, row by row. |
| Pipeline.TargetIsParsedSalary | chain_pattern/handlers/build_matrices.py:25 | The saved salary vector holds, for each row, the salary parsed from that row's "зп" text. |
| NormalizeColumns.NormalizeName | chain_pattern/handlers/normalize_columns.py:19-25 | A normalised label has no space and no comma. |
| NormalizeColumns.NormalizeNames | chain_pattern/handlers/normalize_columns.py:19-25 | One new label per old label, in order. |
| NormalizeColumns.Normalize | chain_pattern/handlers/normalize_columns.py:19-25 | Labels are rewritten in place and the columns are kept. Labels that the rewrite makes equal are an error. |
| NormalizeColumns.Process | chain_pattern/handlers/normalize_columns.py:19-26 | Assigns the new labels to the frame itself and returns it. |
| NormalizeColumns.GenderAgeHeader | chain_pattern/handlers/normalize_columns.py:19-25 | The header "Пол, возраст" becomes "пол_возраст", the label the next stage reads. |
| NormalizeColumns.PlainHeader | chain_pattern/handlers/normalize_columns.py:19-25 | A header without surrounding whitespace, spaces or commas becomes its lower-case form. |
| NormalizeColumns.SalaryHeader | chain_pattern/handlers/normalize_columns.py:19-25 | "ЗП" becomes "зп". |
| NormalizeColumns.CityHeader | chain_pattern/handlers/normalize_columns.py:19-25 | "Город" becomes "город". |
| NormalizeColumns.RemoveCharAppend | chain_pattern/handlers/normalize_columns.py:24 | Deleting a character distributes over concatenation. |
| ParseGenderAge.ParseGender | chain_pattern/handlers/parse_gender_age.py:22-23 | The flag is 0 or 1, and 1 exactly when the lower-cased text contains "муж". |
| ParseGenderAge.ParseAge | chain_pattern/handlers/parse_gender_age.py:25-27 | The age is at least -1, and -1 exactly when the pattern matches nowhere. |
| ParseGenderAge.Apply | chain_pattern/handlers/parse_gender_age.py:29-32 | Fails exactly when the column is missing (KeyError) or holds a non-text cell. Otherwise adds gender and age row by row and drops the source column. |
| ParseGenderAge.Process | chain_pattern/handlers/parse_gender_age.py:15-33 | Updates the frame itself as `Apply` says. |
| ParseGenderAge.GenderIgnoresCase | chain_pattern/handlers/parse_gender_age.py:23 | The gender flag does not depend on letter case. |
| ParseGenderAge.MaleRecord | chain_pattern/handlers/parse_gender_age.py:23 | A record that starts with "Мужчина" is male. |
| ParseGenderAge.AgeNeedsYearsWord | chain_pattern/handlers/parse_gender_age.py:26-27 | A text without the letter 'г' has age -1. |
| ParseGenderAge.AgeOfRecord | chain_pattern/handlers/parse_gender_age.py:26-27 | A number after digit-free text and before "года" (spaces between allowed) is read back exactly. |
| ParseGenderAge.AgeAfterHead | chain_pattern/handlers/parse_gender_age.py:26-27 | Whatever comes before it, including other numbers: if the pattern matches nowhere in that head, a number, spaces and "года" after it are read as that number. |
| ParseGenderAge.AgeSkipsEarlierNumber | chain_pattern/handlers/parse_gender_age.py:26-27 | "ID 7, 25 года" gives 25: an earlier number without "года" is skipped. |
| ParseSalary.ParseSalary | chain_pattern/handlers/parse_salary.py:21-23 | The salary is the decimal value of all the digits of the text, in order. |
| ParseSalary.Apply | chain_pattern/handlers/parse_salary.py:25 | Fails exactly when "зп" is missing or holds a non-text cell. Otherwise sets "salary" row by row. |
| ParseSalary.Process | chain_pattern/handlers/parse_salary.py:14-26 | Updates the frame itself as `Apply` says. |
| ParseSalary.SalaryAppend | chain_pattern/handlers/parse_salary.py:22-23 | Reading `a + b` shifts `a`'s value by the number of digits of `b`. |
| ParseSalary.SalaryIgnoresSeparators | chain_pattern/handlers/parse_salary.py:22 | Digit-free text such as spaces or a currency sign changes nothing. |
| ParseSalary.SalaryRoundTrip | chain_pattern/handlers/parse_salary.py:22-23 | An amount written in decimal and followed by a unit is read back exactly. |
| ParseSalary.SalaryWithoutDigits | chain_pattern/handlers/parse_salary.py:23 | A text without digits gives 0. |
| ParseCity.ParseCity | chain_pattern/handlers/parse_city.py:19 | The city has no comma and no surrounding whitespace. |
| ParseCity.Apply | chain_pattern/handlers/parse_city.py:19-20 | Fails exactly when "город" is missing or holds a non-text cell. Otherwise adds "city" row by row and drops "город". |
| ParseCity.Process | chain_pattern/handlers/parse_city.py:12-21 | Updates the frame itself as `Apply` says. |
| ParseCity.CityOfList | chain_pattern/handlers/parse_city.py:19 | From a comma-separated list, the first entry, stripped. |
| ParseCity.CityWithoutComma | chain_pattern/handlers/parse_city.py:19 | A value without a comma is the whole value, stripped. |
| ParseCity.CityIdempotent | chain_pattern/handlers/parse_city.py:19 | Parsing a parsed city changes nothing. |
| LabelEncoding.Encode | chain_pattern/handlers/encode_categorical.py:30-31 | One code per value. Codes are below the number of classes, equal exactly for equal values, and ordered as the values are. |
| LabelEncoding.EncodeDense | chain_pattern/handlers/encode_categorical.py:30-31 | Every code below the number of classes is used. |
| LabelEncoding.RankMonotone | chain_pattern/handlers/encode_categorical.py:31 | A class that sorts first gets the smaller code. |
| EncodeCategorical.ColumnTexts | chain_pattern/handlers/encode_categorical.py:31 | `astype(str)` succeeds exactly when the column has no float cell, and gives each cell's text. |
| EncodeCategorical.Encoded | chain_pattern/handlers/encode_categorical.py:30-31 | The encoded column is the label codes of the column's texts. |
| EncodeCategorical.EncodeAll | chain_pattern/handlers/encode_categorical.py:28-31 | The loop keeps the labels, their order and the rows. |
| EncodeCategorical.EncodeOne | chain_pattern/handlers/encode_categorical.py:29-31 | An absent column is skipped. A present one is replaced by its codes, where it stands. |
| EncodeCategorical.Process | chain_pattern/handlers/encode_categorical.py:28-32 | The loop updates the frame itself as the fold over the categorical labels says. |
| EncodeCategorical.FailureStops | chain_pattern/handlers/encode_categorical.py:28-31 | Once a column fails, the loop ends with that error. |
| EncodeCategorical.EncodeAllSpec | chain_pattern/handlers/encode_categorical.py:28-31 | The loop succeeds exactly when no present categorical column has a float cell. It then encodes the present ones and leaves every other column as it was. |
| BuildMatrices.Features | chain_pattern/handlers/build_matrices.py:26 | The feature labels are exactly the numeric columns other than "salary" and "зп", in frame order and without repeats. |
| BuildMatrices.Build | chain_pattern/handlers/build_matrices.py:25-26 | Errors: KeyError for a missing "salary", then a non-numeric salary, then KeyError for a missing "зп". Otherwise one matrix row and one target per frame row, each entry read from its column. |
| BuildMatrices.OutputPath | chain_pattern/handlers/build_matrices.py:28-29 | The path ends with the file name. |
| BuildMatrices.Process | chain_pattern/handlers/build_matrices.py:18-31 | Saves both arrays and hands on the frame unchanged. On an error nothing is saved. |
| BuildMatrices.SavedBoth | chain_pattern/handlers/build_matrices.py:28-29 | After both saves, each file holds its own array. |
| AppParsers.FirstMatchSpec | app/data/parsers.py:11-15 | The match is the first column whose lower-cased label contains a lower-cased candidate. |
| AppParsers.FindColumn | app/data/parsers.py:9-16 | The result is one of the labels. An error is IndexError and happens only with at most three columns. |
| AppParsers.FindColumnSpec | app/data/parsers.py:11-16 | The first matching label when there is one. Otherwise the fourth label, or IndexError when there are at most three. |
| AppParsers.Salary | app/data/parsers.py:19-24 | Missing is 0. A text gives the value of its digits. An integer gives its magnitude. A float has no modelled text. |
| AppParsers.IntSalary | app/data/parsers.py:23-24 | The digits of an integer's text read back as its magnitude. |
| AppParsers.AgeIn | app/data/parsers.py:31-32 | At least -1, and -1 exactly when the age pattern matches nowhere. |
| AppParsers.Age | app/data/parsers.py:27-32 | Missing is -1. Otherwise the age found in the lower-cased text. |
| AppParsers.AgeOfRecord | app/data/parsers.py:31-32 | A number after digit-free text and before "лет", "год", "года" or "году" is read back exactly. |
| AppParsers.AgeAfterHead | app/data/parsers.py:31-32 | Whatever comes before it, including other numbers: if the pattern matches nowhere in that head, a number, spaces and a year word after it are read as that number. |
| AppParsers.AgeSkipsEarlierNumber | app/data/parsers.py:31-32 | "id 7, 25 года" gives 25: an earlier number without a year word is skipped. |
| AppParsers.ExperienceIn | app/data/parsers.py:40-49 | Either -1.0 or non-negative, and -1.0 exactly when none of the three patterns matches. The patterns are tried in order: years plus months / 12, else whole years, else months / 12, each from the leftmost match of the first pattern that matches. |
| AppParsers.ExperienceYearsAsGoda | app/data/parsers.py:40-48 | "Опыт работы 2 года 3 месяца" matches none of the three patterns, which want "лет" or "месяц" after the first number, so its experience is -1.0. |
| AppParsers.ExperienceOfRecord | app/data/parsers.py:40-48 | "Опыт работы", n, "лет", m, "месяц" (whitespace runs between) is read as n + m / 12. The whole-years pattern matches that text too, but the first pattern wins. |
| AppParsers.ExperienceYears | app/data/parsers.py:35-49 | Missing is -1.0. Otherwise the experience in the first 200 characters. |
| AppParsers.ExperienceReadsPrefix | app/data/parsers.py:39 | Text after the 200th character changes nothing. |
| Labeling.LevelFromTitle | app/features/labeling.py:12-21 | None for a missing title. Never middle. |
| Labeling.TitleLevel | app/features/labeling.py:16-21 | Junior exactly when a junior word occurs. Senior exactly when no junior word but a senior word occurs. |
| Labeling.LevelFromExperience | app/features/labeling.py:24-32 | Middle for a negative value. Otherwise junior exactly up to 2 years and senior exactly from 6 years. |
| Labeling.ExperienceMonotone | app/features/labeling.py:24-32 | More known experience never gives a lower level. |
| Labeling.UnknownExperienceIsMiddle | app/features/labeling.py:26-27 | A missing experience gives middle. |
| Labeling.RowLevel | app/features/labeling.py:53-55 | The title's level when it has one, otherwise the experience level. |
| Labeling.JuniorTitleWins | app/features/labeling.py:17-18 | A junior word in the title makes the row junior, whatever the experience. |
| Labeling.SeniorTitleWins | app/features/labeling.py:19-20 | A senior word without a junior word makes the row senior. |
| Labeling.FindSources | app/features/labeling.py:41-44 | Succeeds exactly when all four label lookups succeed, and then gives the four columns found. The four source columns are labels of the frame. An error is IndexError. |
| Labeling.SalaryColumn | app/features/labeling.py:47 | Fails exactly on a float cell. Otherwise each row's salary. |
| Labeling.AgeColumn | app/features/labeling.py:48 | Each row's age, at least -1. |
| Labeling.ExperienceColumn | app/features/labeling.py:49 | Each row's experience. |
| Labeling.ParseColumns | app/features/labeling.py:46-49 | Fails exactly on a float salary cell. Otherwise the row count is kept and there is one experience value per row. |
| Labeling.ParsedColumns | app/features/labeling.py:46-49 | The parsed columns are the row-by-row salary, age and experience of the source columns. |
| Labeling.LevelCells | app/features/labeling.py:51-55 | One level name per row, the row's level. |
| Labeling.TargetTable | app/features/labeling.py:35-57 | Succeeds exactly when the source columns are found and the salary column holds no float. Errors: IndexError when a source column is not found, otherwise the float salary. On success the four new labels are added, the rows are kept and the other columns are unchanged. |
| Labeling.RowLevels | app/features/labeling.py:51-55 | The loop collects each row's level, in order. |
| Labeling.CreateTargetVariable | app/features/labeling.py:35-57 | Computes the target table. |
| Labeling.TargetColumns | app/features/labeling.py:46-56 | On a frame without the new labels: "_salary", "_age", "_exp_years" and "level" are the parsed salary, age, experience and row level. |
| Filters.IsItDeveloper | app/data/filters.py:20-25 | False for a missing title. |
| Filters.ItDeveloperSpec | app/data/filters.py:24-25 | A title is an IT title exactly when some lower-cased keyword occurs in the lower-cased title. |
| Filters.Mask | app/data/filters.py:31 | The mask is the test applied to each row. |
| Filters.FilterItDevelopers | app/data/filters.py:28-31 | IndexError exactly when no job column is found. A frame with no rows gives a frame with no rows and no columns, as pandas reads the empty non-boolean mask as a list of labels. Otherwise every column keeps exactly the passing rows in order, and the labels are unchanged. |
| Filters.KeptAll | app/data/filters.py:31 | A mask that is all true keeps every row in order. |
| Filters.FilterIdempotent | app/data/filters.py:28-31 | Filtering a filtered frame that kept at least one row changes nothing. |
| Filters.FilterNoneKept | app/data/filters.py:28-31 | When rows exist but none passes, filtering the result again leaves no columns, and filtering that raises IndexError. |
| Engineering.FillSentinels | app/features/engineering.py:18-19 | Entries other than -1 are kept. Each -1 becomes the median. |
| Engineering.NoSentinelLeft | app/features/engineering.py:18-19 | With a median other than -1, no -1 is left. |
| Engineering.FillSentinelsIdempotent | app/features/engineering.py:18-19 | Filling twice is filling once, and a column without -1 is unchanged. |
| Engineering.FilledText | app/features/engineering.py:24-25 | Missing becomes "". A float has no modelled text. Otherwise the cell's text. |
| Engineering.FilledTexts | app/features/engineering.py:36 | Fails exactly on a float cell. Otherwise each cell's filled text. |
| Engineering.City | app/features/engineering.py:26-29 | Never empty and without a comma. It is the first list entry, stripped, or "не указан" when that is empty. |
| Engineering.ExperienceText | app/features/engineering.py:35-39 | Stripped, and no longer than 1500 characters of experience, a space and the title. |
| Engineering.ExperienceTextEndsWithTitle | app/features/engineering.py:35-39 | A stripped non-empty title ends the text. |
| Engineering.Numbers | app/features/engineering.py:17-19 | KeyError for "_salary", then "_age", then "_exp_years". Otherwise "salary" is copied, and "age" and "experience_years" get their -1 replaced by the medians. |
| Engineering.CityColumns | app/features/engineering.py:21-31 | Succeeds exactly when a city column is found and holds no float. IndexError when no city column is found, FloatText for a float city. Otherwise adds "city" and "city_encoded". |
| Engineering.TextColumn | app/features/engineering.py:33-39 | Succeeds exactly when both the experience and job columns are found and neither holds a float. IndexError when a lookup fails, else FloatText for the experience column, else for the job column. Adds "experience_text" from the two columns. |
| Engineering.PrepareFeatures | app/features/engineering.py:10-41 | The stages in source order. Succeeds exactly when each stage does, and a failure is the first failing stage's error. The result is well-formed with the rows kept. |
| Engineering.PrepareSucceeds | app/features/engineering.py:10-41 | A well-formed labelled frame succeeds when it has city, experience and job columns found under a matching label and none of them holds a float. |
| Engineering.CityRows | app/features/engineering.py:22-31 | Every city is non-empty text without a comma. Codes are equal exactly for equal cities and below the row count. |
| Engineering.TextRows | app/features/engineering.py:35-39 | Every experience text is stripped. |
| Engineering.PreparedRows | app/features/engineering.py:10-41 | The prepared frame has the city, code and text properties above, and no -1 left in age or experience. |
| ArtifactStore.MkDir | regression/model_io.py:74 | Fails exactly when the path is not a directory and is a file or refused. It keeps the files and adds the directory, and keeps files and directories apart. |
| ArtifactStore.Write | regression/model_io.py:75 | Succeeds exactly when the parent directory exists and the path is neither a directory nor refused. It then replaces only that file and keeps files and directories apart. |
| ArtifactStore.FileStore.MakeDir | regression/model_io.py:74 | `mkdir` on the store does what `MkDir` says. |
| ArtifactStore.FileStore.Dump | regression/model_io.py:75 | `joblib.dump` on the store does what `Write` says. |
| ModelIO.ResourcesDir | regression/model_io.py:15-19 | The resources directory path ends with "resources". |
| ModelIO.ModelPath | regression/model_io.py:12-28 | The model file lies directly in the resources directory, under the fixed name. |
| ModelIO.LoadFrom | regression/model_io.py:38-60 | Succeeds exactly for a present, loadable object with a callable `predict` and `n_features_in_`, returned as is. Errors, in order: FileNotFound with the training hint, unreadable, no `predict`, no feature count. |
| ModelIO.Load | regression/model_io.py:31-60 | Reads only the fixed model file: succeeds exactly when that file holds a loadable object with a callable `predict` and a feature count, returns that object, and gives FileNotFound naming the file when it is missing. |
| ModelIO.SaveTo | regression/model_io.py:70-79 | Makes the directory, then writes. Succeeds exactly when both can. Any failure is OSError naming the file and writes no file. The directory exists afterwards exactly when it existed or could be made. |
| ModelIO.Save | regression/model_io.py:63-80 | Succeeds exactly when the resources directory exists or can be made and the model file can be written. On success only the model file changes and the directory exists. On failure it is OSError naming the model file, with no file written; the resources directory exists afterwards exactly when it existed or could be made. |
| ModelIO.ModelPathInResources | regression/model_io.py:15-28 | The model file is not the resources directory itself. |
| ModelIO.SaveModel | regression/model_io.py:63-80 | `save_model` on the store ends as `Save` says. |
| ModelIO.SaveThenLoad | regression/model_io.py:31-80 | A saved object with a callable `predict` and a feature count loads back as itself. |
| ModelIO.SaveThenLoadRefused | regression/model_io.py:51-58 | A saved object without them is refused on loading, `predict` checked first. |
| ModelIO.SaveKeepsOtherFiles | regression/model_io.py:73-75 | Saving leaves every other file as it was. |
| Training.XPath | regression/train.py:40 | The feature file is named x_data.npy and lies directly in the data directory. |
| Training.YPath | regression/train.py:41 | The target file is named y_data.npy, lies directly in the data directory, and is not the feature file. |
| Training.LoadDataFrom | regression/train.py:40-73 | Succeeds exactly for a 2-D X and a 1-D y with equal row counts, returned as loaded. Errors, in order: missing x, missing y, unreadable, X's ndim, y's ndim, row counts (both named). |
| Training.LoadData | regression/train.py:23-73 | Succeeds exactly when the directory's two files are trainable, and returns them. Otherwise each failing check, in order, gives its own exception: missing x_data.npy, missing y_data.npy, unreadable directory, X's ndim, y's ndim, row counts. |
| Training.Split | regression/train.py:93-95 | ValueError exactly below two rows. Otherwise a fifth of the rows, rounded up, for testing and the rest, at least one, for training. Each row is on exactly one side. |
| Training.TestSizeCeiling | regression/train.py:93-95 | The test size is the least count whose five-fold covers the rows, ceil(0.2 n). With two rows or more, both sides are non-empty. |
| Training.Partition | regression/train.py:93-95 | Every row lies on exactly one side of a cut of the shuffle. |
| Training.AllRows | regression/train.py:128 | Every row, in order. |
| Training.Regressor.Fit | regression/train.py:116-128 | `fit` raises exactly where the estimator does. Otherwise the pipeline learns those rows and the column count. |
| Training.Run | regression/train.py:76-130 | Validation errors come first and leave the disk unchanged. For valid data it is, in order: ValueError for fewer than two rows, a failed fit on the training split, an estimator error on the full refit, else the save of the full refit. Only a save error can leave a change. On success the model file holds the full refit. Files and directories stay apart. |
| Training.FullRefit | regression/train.py:128-129 | The saved pipeline is callable, has the matrix's column count, and was fit on every row in order. |
| Training.Train | regression/train.py:76-130 | `train` on the store ends as `Run` says. The pipeline is fit twice, first on a strict part of the rows, then on every row in order. |
| Training.TrainingRowsAmongAll | regression/train.py:93-117 | The training rows are a strict sub-multiset of all rows. |
| Training.ShuffleMultiset | regression/train.py:93-95 | A shuffle holds each row exactly once. |
| Training.ChainOutputLoads | chain_pattern/handlers/build_matrices.py:25-29 | The chain's output passes `load_data`: one matrix row per frame row, one column per feature, and one target per row. |
| Prediction.LoadXData | regression/predict.py:13-41 | Succeeds exactly for a present 2-D array. Errors, in order: missing, unreadable, ndim (named). |
| Prediction.PredictSalaries | regression/predict.py:44-71 | The matrix is checked before the model. A column count other than `n_features_in_` is ValueError naming both. Otherwise one estimate per row, in row order. |
| Prediction.TrainThenPredict | regression/predict.py:61-69 | After training, predicting on the same matrix passes the feature-count check and gives one estimate per row from the full refit. |

## Left out

- The CSV readers (`load_csv.py`, `app/data/loader.py`) are I/O. A loaded file is a `Table` with unique labels.
- The command-line entry points are not modelled. They parse arguments, print and set exit codes.
- Metrics (MAE, RMSE, R², classification reports), plotting and report writing are left out. They are floating point and foreign library code.
- The sklearn/imblearn classifier pipeline and its training (`app/model/`) are foreign calls.
- Logging is left out.
- The estimator's arithmetic is not modelled. It is a parameter: `fails` says on which rows `fit` raises, and `estimate` gives the prediction for a row.
- numpy arrays on disk are known by their shape only. The chain's saved entries are real numbers or NaN; `float32` rounding is not modelled.
- Engineering.Numbers: the medians of `_age` and `_exp_years` are parameters. Their floating-point computation is not modelled.
- Labeling.TargetColumns: stated only for frames that do not already have the four new labels. On such a frame, pandas would overwrite them before reading.
- The text form of a Python float is not modelled. A float cell that must become text is the error `FloatText`. This affects `astype(str)` in the encoder, `str(value)` of a float salary, and the city and experience texts. A float can never contain the keywords or patterns, so title, IT-filter, age and experience searches on it give their "not found" value.
- AppParsers.Salary: a float salary gives `None` (no modelled text) rather than the digits of its repr.
- `str.lower` covers ASCII and the Cyrillic block U+0400–U+042F, not all of Unicode.
- `\d` and `\s` match ASCII digits and Python's whitespace set. Other Unicode digits are left out.
- pandas labels are unique in the model. Labels that `normalize_columns` makes equal are the error `DuplicateColumns`, where pandas would keep duplicate labels.
- Dtype changes from `replace` are simplified. The replaced -1 entries become float cells while the rest keep their kind.
- `iterrows` is the loop `RowLevels` over the two columns it reads.
- Training.Split: the test size is computed exactly as ceil(n/5). sklearn computes `ceil(0.2 * n)` in floating point.
- Training.Split: the shuffle drawn with `random_state=42` is a parameter, and only its being a permutation is used.
- ArtifactStore.MkDir: `parents=True` creates missing ancestors. The model creates only the resources directory, since its parent holds the module file.
- Exception messages are kept only as the data they name: paths, counts, and the training hint. The type name in the "no predict" message is not kept.
- Pipeline.ParentDir: the model assumes the path is already in pathlib's normal form. A path with a doubled or trailing slash, such as "a//b.csv", would give "a/" where pathlib gives "a". `build_pipeline` receives the command-line string as typed, so such a path is not normalised first.
- BuildMatrices.Features: a column counts as numeric when every cell is a number. `select_dtypes` decides by the column's dtype instead, so on a frame with no rows the model takes every column as a feature, where pandas drops object columns. No frame the chain builds has that shape.
- BuildMatrices.Build: a salary column of digit strings is the error `NotNumeric`. numpy's `float32` cast would convert it. The chain always writes numbers into "salary", so the case does not arise there.
