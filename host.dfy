/**
 * The Node.js services the plugin calls but does not implement (`path`,
 * `fs` and `process.cwd()`), given to the model as opaque functions.
 */
module Host {

  datatype PathHost = PathHost(
    /** `process.cwd()` */
    cwd: string,
    /** `path.isAbsolute` */
    isAbsolute: string -> bool,
    /** `path.join` of two segments */
    join: (string, string) -> string,
    /** `path.normalize` */
    normalize: string -> string,
    /** `path.dirname` */
    dirname: string -> string,
    /** `path.relative(from, to)` */
    relative: (string, string) -> string,
    /** `fileExists` (src/utils.ts): `fs.promises.stat` succeeds and names a regular file */
    fileExists: string -> bool,
    /** `fs.existsSync`: something, file or directory, exists at the path */
    pathExists: string -> bool)
}
