/** The settings record of a matrix-creator run. */
module Configuration {
  import opened Harmonics
  import FileSystem

  /** Where the response files come from, which fixes how their names are read. */
  datatype HrirDatabase = Listen | Sadie

  /** `hrir_matrix_creator::Config`. */
  datatype Config = Config(
    order: nat,
    waveFolder: FileSystem.Folder,
    classname: string,
    dimension: Dimension,
    databaseType: HrirDatabase,
    filenamePrefix: string,
    fileExtension: string,
    outputDirectory: string,
    waveFiles: set<string>,
    notes: string)

  /** A record with the required fields given and every optional field at its default. */
  function DefaultConfig(order: nat, waveFolder: FileSystem.Folder, classname: string,
                         dimension: Dimension, databaseType: HrirDatabase): Config
  {
    Config(order, waveFolder, classname, dimension, databaseType, "Hoa_Hrir_", ".hpp", "./", {}, "")
  }
}
